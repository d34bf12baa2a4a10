/** The diff of successive scans (`scan` of internal/device/watcher.go). */
module Watcher {
  import opened Wrappers
  import opened Bytes
  import opened EventQueue
  import opened Ports

  datatype Info = Info(path: string, realPath: string, serial: string, vid: nat, pid: nat)

  datatype Key = BySerial(serial: string, vid: nat, pid: nat) | ByPath(path: string)

  datatype Event = DeviceAdded(info: Info) | DeviceRemoved(info: Info)

  function DeviceKey(info: Info): Key {
    if info.serial != "" then BySerial(info.serial, info.vid, info.pid) else ByPath(info.path)
  }

  type Known = map<Key, Info>

  /** The devices behind the first k ports, the last one winning where two have the same key. */
  function Current(ports: seq<Port>, k: nat, resolve: Port -> Option<Info>): Known
    requires k <= |ports|
  {
    if k == 0 then map[]
    else
      var before := Current(ports, k - 1, resolve);
      match resolve(ports[k - 1])
      case None => before
      case Some(found) =>
        var info := found.(path := ports[k - 1].path, realPath := ports[k - 1].realPath);
        before[DeviceKey(info) := info]
  }

  /** What is known after a scan: the current devices, those known before with the record they had. */
  function Merged(seen: Known, current: Known): Known {
    map k | k in current :: if k in seen then seen[k] else current[k]
  }

  /** The new devices that look like boards; a scan announces these, and every device that is gone. */
  function NewBoards(seen: Known, current: Known, likely: Info -> bool): set<Key> {
    set k | k in current && k !in seen && likely(current[k])
  }

  function Gone(seen: Known, current: Known): set<Key> {
    set k | k in seen && k !in current
  }

  /** The announcement of a key: a current device was added, another known one has gone. */
  function EventFor(seen: Known, current: Known, key: Key): seq<Event> {
    if key in current then [DeviceAdded(current[key])] else if key in seen then [DeviceRemoved(seen[key])] else []
  }

  function EventsFor(seen: Known, current: Known, keys: seq<Key>): seq<Event> {
    if keys == [] then []
    else EventsFor(seen, current, keys[..|keys| - 1]) + EventFor(seen, current, keys[|keys| - 1])
  }

  lemma {:induction false} OneEventEach(seen: Known, current: Known, keys: seq<Key>)
    requires forall k :: k in keys ==> k in seen || k in current
    ensures |EventsFor(seen, current, keys)| == |keys|
    decreases |keys|
  {
    if keys != [] {
      OneEventEach(seen, current, keys[..|keys| - 1]);
    }
  }

  /** The keys of the set, each once. */
  ghost predicate Lists(keys: seq<Key>, all: set<Key>) {
    |keys| == |all| && forall k :: k in keys <==> k in all
  }

  lemma {:induction false} EventsForConcat(seen: Known, current: Known, a: seq<Key>, b: seq<Key>)
    ensures EventsFor(seen, current, a + b) == EventsFor(seen, current, a) + EventsFor(seen, current, b)
    decreases |b|
  {
    if b == [] {
      assert a + b == a;
    } else {
      var last := |b| - 1;
      var first := EventsFor(seen, current, a);
      EventsForConcat(seen, current, a, b[..last]);
      WithoutLast(a, b);
      Regrouped(first, EventsFor(seen, current, b[..last]), EventFor(seen, current, b[last]));
    }
  }

  lemma WithoutLast(a: seq<Key>, b: seq<Key>)
    requires b != []
    ensures (a + b)[..|a + b| - 1] == a + b[..|b| - 1] && (a + b)[|a + b| - 1] == b[|b| - 1]
  {
  }

  lemma OneMoreListed(keys: seq<Key>, all: set<Key>, key: Key)
    requires Lists(keys, all) && key !in all
    ensures Lists(keys + [key], all + {key})
  {
  }

  // The index by path.

  type Paths = map<string, Info>

  /** Some of the given devices is at the path. */
  ghost predicate Occupied(current: Known, keys: set<Key>, path: string) {
    exists k :: k in keys && k in current && current[k].path == path
  }

  /** The index once the given devices are entered. */
  ghost predicate Entered(paths: Paths, now: Paths, current: Known, keys: set<Key>) {
    && (forall p :: p in now <==> p in paths || Occupied(current, keys, p))
    && (forall p :: p in now && Occupied(current, keys, p) ==> now[p].path == p && DeviceOf(now[p], current, keys))
    && (forall p :: p in now && !Occupied(current, keys, p) ==> now[p] == paths[p])
  }

  ghost predicate DeviceOf(info: Info, current: Known, keys: set<Key>) {
    exists k :: k in keys && k in current && current[k] == info
  }

  /** A device that is gone was known at the path. */
  ghost predicate Vacated(seen: Known, keys: set<Key>, path: string) {
    exists k :: k in keys && k in seen && seen[k].path == path
  }

  /** The index once the paths of the given devices are dropped. */
  ghost predicate Dropped(paths: Paths, now: Paths, seen: Known, keys: set<Key>) {
    && (forall p :: p in now <==> p in paths && !Vacated(seen, keys, p))
    && (forall p :: p in now ==> now[p] == paths[p])
  }

  /** The index after a scan: the current devices are entered, then the paths of those that are gone are dropped. */
  ghost predicate Indexed(paths: Paths, now: Paths, seen: Known, current: Known) {
    exists between :: Entered(paths, between, current, current.Keys) && Dropped(between, now, seen, Gone(seen, current))
  }

  lemma EnterOne(paths: Paths, now: Paths, current: Known, keys: set<Key>, key: Key)
    requires Entered(paths, now, current, keys) && key in current
    ensures Entered(paths, now[current[key].path := current[key]], current, keys + {key})
  {
    var after := now[current[key].path := current[key]];
    forall p
      ensures Occupied(current, keys + {key}, p) <==> Occupied(current, keys, p) || p == current[key].path
    {
      assert key in keys + {key};
    }
    forall p | p in after && Occupied(current, keys + {key}, p)
      ensures DeviceOf(after[p], current, keys + {key})
    {
      if p != current[key].path {
        var k :| k in keys && k in current && current[k] == now[p];
        assert k in keys + {key};
      }
    }
  }

  lemma DropOne(paths: Paths, now: Paths, seen: Known, keys: set<Key>, key: Key)
    requires Dropped(paths, now, seen, keys) && key in seen
    ensures Dropped(paths, now - {seen[key].path}, seen, keys + {key})
  {
    forall p
      ensures Vacated(seen, keys + {key}, p) <==> Vacated(seen, keys, p) || p == seen[key].path
    {
      assert key in keys + {key};
    }
  }

  /** A scan that fails, or comes while the watcher is paused, tells nothing. */
  function AfterScans(seen: Known, scans: seq<Option<Known>>): Known {
    if scans == [] then seen
    else
      var before := AfterScans(seen, scans[..|scans| - 1]);
      match scans[|scans| - 1]
      case None => before
      case Some(current) => Merged(before, current)
  }

  /** After any series of scans the known keys are those of the last scan that told something. */
  lemma {:induction false} KnownKeysAreCurrent(seen: Known, scans: seq<Option<Known>>, last: nat)
    requires last < |scans| && scans[last].Some? && forall i :: last < i < |scans| ==> scans[i].None?
    ensures AfterScans(seen, scans).Keys == scans[last].value.Keys
  {
    if last < |scans| - 1 {
      KnownKeysAreCurrent(seen, scans[..|scans| - 1], last);
    }
  }

  function Unignored(ports: seq<Port>, ignored: Port -> bool): seq<Port> {
    if ports == [] then [] else (if ignored(ports[0]) then [] else [ports[0]]) + Unignored(ports[1..], ignored)
  }

  lemma RestUnignored(ports: seq<Port>, i: nat, ignored: Port -> bool, kept: seq<Port>)
    requires i < |ports|
    ensures kept + Unignored(ports[i..], ignored)
         == (if ignored(ports[i]) then kept else kept + [ports[i]]) + Unignored(ports[i + 1..], ignored)
  {
    assert ports[i..][1..] == ports[i + 1..];
  }

  method FilterIgnored(ports: seq<Port>, ignored: Port -> bool) returns (kept: seq<Port>)
    ensures kept == Unignored(ports, ignored)
  {
    kept := [];
    for i := 0 to |ports|
      invariant kept + Unignored(ports[i..], ignored) == Unignored(ports, ignored)
    {
      RestUnignored(ports, i, ignored, kept);
      if !ignored(ports[i]) {
        kept := kept + [ports[i]];
      }
    }
  }

  method Identify(ports: seq<Port>, resolve: Port -> Option<Info>) returns (current: Known)
    ensures current == Current(ports, |ports|, resolve)
  {
    current := map[];
    for k := 0 to |ports|
      invariant current == Current(ports, k, resolve)
    {
      var found := resolve(ports[k]);
      if found.None? {
        continue;
      }
      var info := found.value.(path := ports[k].path, realPath := ports[k].realPath);
      current := current[DeviceKey(info) := info];
    }
  }

  // The two loops of a scan, one key at a time.

  /** What is known, the index, and the keys announced so far. */
  datatype Progress = Progress(seen: Known, paths: Paths, keys: seq<Key>)

  function AddStep(p: Progress, current: Known, likely: Info -> bool, key: Key): Progress {
    if key !in current then p
    else
      var paths := p.paths[current[key].path := current[key]];
      if key in p.seen then p.(paths := paths)
      else Progress(p.seen[key := current[key]], paths, if likely(current[key]) then p.keys + [key] else p.keys)
  }

  function AddSteps(p: Progress, current: Known, likely: Info -> bool, visited: seq<Key>): Progress {
    if visited == [] then p
    else AddStep(AddSteps(p, current, likely, visited[..|visited| - 1]), current, likely, visited[|visited| - 1])
  }

  function RemoveStep(p: Progress, current: Known, key: Key): Progress {
    if key in current || key !in p.seen then p
    else Progress(p.seen - {key}, p.paths - {p.seen[key].path}, p.keys + [key])
  }

  function RemoveSteps(p: Progress, current: Known, visited: seq<Key>): Progress {
    if visited == [] then p
    else RemoveStep(RemoveSteps(p, current, visited[..|visited| - 1]), current, visited[|visited| - 1])
  }

  lemma StepsExtend(p: Progress, current: Known, likely: Info -> bool, visited: seq<Key>, key: Key)
    ensures AddSteps(p, current, likely, visited + [key])
            == AddStep(AddSteps(p, current, likely, visited), current, likely, key)
    ensures RemoveSteps(p, current, visited + [key]) == RemoveStep(RemoveSteps(p, current, visited), current, key)
  {
    assert (visited + [key])[..|visited|] == visited;
  }

  /** The keys of a map, as a loop over it visits them. */
  ghost predicate Visiting(all: set<Key>, todo: set<Key>, visited: seq<Key>) {
    Lists(visited, all - todo) && todo <= all
  }

  lemma VisitOne(all: set<Key>, todo: set<Key>, visited: seq<Key>, key: Key)
    requires Visiting(all, todo, visited) && key in todo
    ensures Visiting(all, todo - {key}, visited + [key])
  {
    OneMoreListed(visited, all - todo, key);
    assert all - todo + {key} == all - (todo - {key});
  }

  ghost function Visited(keys: seq<Key>): set<Key> { set k | k in keys }

  ghost predicate NoRepeats(keys: seq<Key>) {
    forall i, j :: 0 <= i < j < |keys| ==> keys[i] != keys[j]
  }

  lemma {:induction false} ListsHasNoRepeats(keys: seq<Key>, all: set<Key>)
    requires Lists(keys, all)
    ensures NoRepeats(keys) && Visited(keys) == all
    decreases |keys|
  {
    if keys != [] {
      var last, before := keys[|keys| - 1], keys[..|keys| - 1];
      assert keys == before + [last];
      FewerThanListed(before);
      assert Visited(keys) == all && |Visited(before)| < |all|;
      assert last in before ==> Visited(before) == Visited(keys);
      assert all == (all - {last}) + {last};
      ListsHasNoRepeats(before, all - {last});
    }
  }

  lemma {:induction false} FewerThanListed(keys: seq<Key>)
    ensures |Visited(keys)| <= |keys|
    decreases |keys|
  {
    if keys != [] {
      var last, before := keys[|keys| - 1], keys[..|keys| - 1];
      FewerThanListed(before);
      assert keys == before + [last];
      assert Visited(keys) == Visited(before) + {last};
    }
  }

  lemma LastVisited(keys: seq<Key>)
    requires keys != [] && NoRepeats(keys)
    ensures var last, before := keys[|keys| - 1], keys[..|keys| - 1];
            NoRepeats(before) && keys == before + [last] && Visited(keys) == Visited(before) + {last}
              && last !in Visited(before)
  {
    var last, before := keys[|keys| - 1], keys[..|keys| - 1];
    assert keys == before + [last];
  }

  /** The first loop has looked at the keys in `done`. */
  ghost predicate Adding(start: Progress, now: Progress, current: Known, likely: Info -> bool, done: set<Key>) {
    && (forall k :: k in now.seen <==> k in start.seen || (k in current && k in done))
    && (forall k :: k in now.seen ==> now.seen[k] == if k in start.seen then start.seen[k] else current[k])
    && Entered(start.paths, now.paths, current, done)
    && Lists(now.keys, NewBoards(start.seen, current, likely) * done)
  }

  lemma AddOne(start: Progress, now: Progress, current: Known, likely: Info -> bool, done: set<Key>, key: Key)
    requires Adding(start, now, current, likely, done) && key in current && key !in done
    ensures Adding(start, AddStep(now, current, likely, key), current, likely, done + {key})
  {
    EnterOne(start.paths, now.paths, current, done, key);
    BoardsOneMore(start.seen, current, likely, done, now.keys, key);
  }

  lemma BoardsOneMore(seen: Known, current: Known, likely: Info -> bool, done: set<Key>, keys: seq<Key>, key: Key)
    requires Lists(keys, NewBoards(seen, current, likely) * done) && key in current && key !in done
    ensures Lists(if key !in seen && likely(current[key]) then keys + [key] else keys,
                  NewBoards(seen, current, likely) * (done + {key}))
  {
    var boards := NewBoards(seen, current, likely);
    if key !in seen && likely(current[key]) {
      OneMoreListed(keys, boards * done, key);
      assert boards * (done + {key}) == boards * done + {key};
    } else {
      assert boards * (done + {key}) == boards * done;
    }
  }

  lemma AddedNothing(start: Progress, current: Known, likely: Info -> bool)
    requires start.keys == []
    ensures Adding(start, start, current, likely, Visited([]))
  {
  }

  lemma {:induction false} AddingSteps(start: Progress, current: Known, likely: Info -> bool, visited: seq<Key>)
    requires start.keys == [] && NoRepeats(visited) && forall k :: k in visited ==> k in current
    ensures Adding(start, AddSteps(start, current, likely, visited), current, likely, Visited(visited))
    decreases |visited|
  {
    if visited == [] {
      AddedNothing(start, current, likely);
    } else {
      var last, before := visited[|visited| - 1], visited[..|visited| - 1];
      LastVisited(visited);
      AddingSteps(start, current, likely, before);
      AddOne(start, AddSteps(start, current, likely, before), current, likely, Visited(before), last);
    }
  }

  lemma AddedAll(start: Progress, current: Known, likely: Info -> bool, visited: seq<Key>)
    requires start.keys == [] && Lists(visited, current.Keys)
    ensures var now := AddSteps(start, current, likely, visited);
            && now.seen.Keys == start.seen.Keys + current.Keys
            && (forall k :: k in now.seen ==> now.seen[k] == if k in start.seen then start.seen[k] else current[k])
            && Entered(start.paths, now.paths, current, current.Keys)
            && Lists(now.keys, NewBoards(start.seen, current, likely))
  {
    ListsHasNoRepeats(visited, current.Keys);
    AddingSteps(start, current, likely, visited);
    AddingDone(start, AddSteps(start, current, likely, visited), current, likely);
  }

  lemma AddingDone(start: Progress, now: Progress, current: Known, likely: Info -> bool)
    requires Adding(start, now, current, likely, current.Keys)
    ensures now.seen.Keys == start.seen.Keys + current.Keys && Lists(now.keys, NewBoards(start.seen, current, likely))
  {
    assert NewBoards(start.seen, current, likely) * current.Keys == NewBoards(start.seen, current, likely);
  }

  /** The second loop, which started from `all` of what was known or is current, has looked at the keys in `done`. */
  ghost predicate Removing(before: Known, all: Progress, now: Progress, current: Known, done: set<Key>) {
    && (forall k :: k in now.seen <==> k in all.seen && (k in current || k !in done))
    && (forall k :: k in now.seen ==> now.seen[k] == all.seen[k])
    && Dropped(all.paths, now.paths, before, Gone(before, current) * done)
    && Lists(now.keys, Gone(before, current) * done)
  }

  ghost predicate Extends(all: Known, before: Known, current: Known) {
    && all.Keys == before.Keys + current.Keys
    && forall k :: k in all ==> all[k] == if k in before then before[k] else current[k]
  }

  lemma RemoveOne(before: Known, all: Progress, now: Progress, current: Known, done: set<Key>, key: Key)
    requires Removing(before, all, now, current, done) && Extends(all.seen, before, current) && key in all.seen
             && key !in done
    ensures Removing(before, all, RemoveStep(now, current, key), current, done + {key})
  {
    var gone := Gone(before, current);
    if key in current {
      assert gone * (done + {key}) == gone * done;
    } else {
      assert gone * (done + {key}) == gone * done + {key};
      DropOne(all.paths, now.paths, before, gone * done, key);
      OneMoreListed(now.keys, gone * done, key);
    }
  }

  lemma RemovedNothing(before: Known, all: Progress, current: Known)
    requires all.keys == []
    ensures Removing(before, all, all, current, Visited([]))
  {
  }

  lemma {:induction false} RemovingSteps(before: Known, all: Progress, current: Known, visited: seq<Key>)
    requires all.keys == [] && Extends(all.seen, before, current)
    requires NoRepeats(visited) && forall k :: k in visited ==> k in all.seen
    ensures Removing(before, all, RemoveSteps(all, current, visited), current, Visited(visited))
    decreases |visited|
  {
    if visited == [] {
      RemovedNothing(before, all, current);
    } else {
      var last, first := visited[|visited| - 1], visited[..|visited| - 1];
      LastVisited(visited);
      RemovingSteps(before, all, current, first);
      RemoveOne(before, all, RemoveSteps(all, current, first), current, Visited(first), last);
    }
  }

  lemma RemovedAll(before: Known, all: Progress, current: Known, visited: seq<Key>)
    requires all.keys == [] && Extends(all.seen, before, current) && Lists(visited, all.seen.Keys)
    ensures var now := RemoveSteps(all, current, visited);
            && now.seen == Merged(before, current)
            && Dropped(all.paths, now.paths, before, Gone(before, current))
            && Lists(now.keys, Gone(before, current))
  {
    ListsHasNoRepeats(visited, all.seen.Keys);
    RemovingSteps(before, all, current, visited);
    RemovingDone(before, all, RemoveSteps(all, current, visited), current);
  }

  lemma RemovingDone(before: Known, all: Progress, now: Progress, current: Known)
    requires Extends(all.seen, before, current) && Removing(before, all, now, current, all.seen.Keys)
    ensures now.seen == Merged(before, current)
    ensures Dropped(all.paths, now.paths, before, Gone(before, current)) && Lists(now.keys, Gone(before, current))
  {
    assert Gone(before, current) * all.seen.Keys == Gone(before, current);
  }

  /** What a scan found, and the keys it announced in order: the new boards, then the devices that are gone. */
  datatype Told = Told(current: Known, added: seq<Key>, removed: seq<Key>, taken: seq<nat>)

  /** The announcements are those of the new boards and of what is gone, each once. */
  ghost predicate Announces(told: Told, seen: Known, likely: Info -> bool) {
    && Lists(told.added, NewBoards(seen, told.current, likely))
    && Lists(told.removed, Gone(seen, told.current))
  }

  ghost function Announcements(told: Told, seen: Known): seq<Event> {
    EventsFor(seen, told.current, told.added + told.removed)
  }

  class PortWatcher {
    const events: Channel<Event>
    var seen: Known
    var byPath: Paths
    var paused: bool

    constructor ()
      ensures seen == map[] && byPath == map[] && !paused && events.queue == [] && events.accepted == []
    {
      events := new Channel<Event>();
      seen, byPath, paused := map[], map[], false;
    }

    /**
     One scan: `found` are the serial ports, or nothing when listing them failed. What is known becomes what is
     there. The announcements are sent to a channel that drops what finds it full.
     */
    method Scan(found: Option<seq<Port>>, ignored: Port -> bool, resolve: Port -> Option<Info>, likely: Info -> bool)
      returns (ghost told: Option<Told>)
      modifies this`seen, this`byPath, events
      ensures told.None? <==> paused || found.None?
      ensures told.None? ==> unchanged(this) && unchanged(events)
      ensures told.Some? ==>
                var ports := Unignored(Deduplicated(found.value), ignored);
                told.value.current == Current(ports, |ports|, resolve)
      ensures seen == AfterScans(old(seen), [if told.None? then None else Some(told.value.current)])
      ensures told.Some? ==> Announces(told.value, old(seen), likely)
      ensures told.Some? ==>
                Delivered(old(events.queue), old(events.accepted), events.queue, events.accepted,
                          Announcements(told.value, old(seen)), told.value.taken)
      ensures told.Some? ==> Indexed(old(byPath), byPath, old(seen), told.value.current)
    {
      told := None;
      assert AfterScans(seen, []) == seen;
      if paused || found.None? {
        return;
      }
      var ports := DeduplicatePorts(found.value);
      ports := FilterIgnored(ports, ignored);
      var current := Identify(ports, resolve);
      ghost var before, queue, log := seen, events.queue, events.accepted;
      ghost var added, taken := Add(current, likely);
      ghost var between, queue', log' := byPath, events.queue, events.accepted;
      ghost var removed, later := Remove(current, before);
      assert Dropped(between, byPath, before, Gone(before, current));
      EventsForConcat(before, current, added, removed);
      DeliveredInTurn(queue, log, queue', log', EventsFor(before, current, added), taken,
                      events.queue, events.accepted, EventsFor(before, current, removed), later);
      told := Some(Told(current, added, removed, taken + later));
    }

    method Add(current: Known, likely: Info -> bool) returns (ghost added: seq<Key>, ghost taken: seq<nat>)
      modifies this`seen, this`byPath, events
      ensures Extends(seen, old(seen), current)
      ensures Entered(old(byPath), byPath, current, current.Keys) && Lists(added, NewBoards(old(seen), current, likely))
      ensures Delivered(old(events.queue), old(events.accepted), events.queue, events.accepted,
                        EventsFor(old(seen), current, added), taken)
    {
      added, taken := [], [];
      ghost var start, visited := Progress(seen, byPath, []), [];
      var todo := current.Keys;
      NothingDelivered(events.queue, events.accepted);
      while todo != {}
        invariant Visiting(current.Keys, todo, visited)
        invariant Progress(seen, byPath, added) == AddSteps(start, current, likely, visited)
        invariant Delivered(old(events.queue), old(events.accepted), events.queue, events.accepted,
                            EventsFor(start.seen, current, added), taken)
        decreases todo
      {
        var key :| key in todo;
        VisitOne(current.Keys, todo, visited, key);
        StepsExtend(start, current, likely, visited, key);
        added, taken := AddKey(key, current, likely, start.seen, added, taken, old(events.queue), old(events.accepted));
        todo, visited := todo - {key}, visited + [key];
      }
      AddedAll(start, current, likely, visited);
    }

    /** One turn of the first loop. */
    method AddKey(key: Key, current: Known, likely: Info -> bool, ghost before: Known, ghost added: seq<Key>,
                  ghost taken: seq<nat>, ghost queue: seq<Event>, ghost log: seq<Event>)
      returns (ghost added': seq<Key>, ghost taken': seq<nat>)
      requires key in current
      requires Delivered(queue, log, events.queue, events.accepted, EventsFor(before, current, added), taken)
      modifies this`seen, this`byPath, events
      ensures Progress(seen, byPath, added') == AddStep(Progress(old(seen), old(byPath), added), current, likely, key)
      ensures Delivered(queue, log, events.queue, events.accepted, EventsFor(before, current, added'), taken')
    {
      added', taken' := added, taken;
      var info := current[key];
      if key !in seen {
        seen := seen[key := info];
        byPath := byPath[info.path := info];
        if likely(info) {
          added', taken' := SendKey(before, current, added, taken, key, DeviceAdded(info), queue, log);
        }
      } else {
        byPath := byPath[info.path := info];
      }
    }

    /** `sendEvent`, and the account of the announcements so far. */
    method SendKey(ghost before: Known, ghost current: Known, ghost keys: seq<Key>, ghost taken: seq<nat>,
                   ghost key: Key, event: Event, ghost queue: seq<Event>, ghost log: seq<Event>)
      returns (ghost keys': seq<Key>, ghost taken': seq<nat>)
      requires EventFor(before, current, key) == [event]
      requires Delivered(queue, log, events.queue, events.accepted, EventsFor(before, current, keys), taken)
      modifies events
      ensures keys' == keys + [key]
      ensures Delivered(queue, log, events.queue, events.accepted, EventsFor(before, current, keys'), taken')
    {
      ghost var queue', log' := events.queue, events.accepted;
      ghost var n := events.Send(event);
      OneMoreDelivered(queue, log, queue', log', EventsFor(before, current, keys), taken, event, n);
      keys', taken' := keys + [key], taken + [n];
      assert keys'[..|keys'| - 1] == keys;
    }

    method Remove(current: Known, ghost before: Known) returns (ghost removed: seq<Key>, ghost taken: seq<nat>)
      requires Extends(seen, before, current)
      modifies this`seen, this`byPath, events
      ensures seen == Merged(before, current)
      ensures Dropped(old(byPath), byPath, before, Gone(before, current)) && Lists(removed, Gone(before, current))
      ensures Delivered(old(events.queue), old(events.accepted), events.queue, events.accepted,
                        EventsFor(before, current, removed), taken)
    {
      removed, taken := [], [];
      ghost var start, visited := Progress(seen, byPath, []), [];
      var todo := seen.Keys;
      NothingDelivered(events.queue, events.accepted);
      while todo != {}
        invariant Visiting(start.seen.Keys, todo, visited)
        invariant Progress(seen, byPath, removed) == RemoveSteps(start, current, visited)
        invariant Delivered(old(events.queue), old(events.accepted), events.queue, events.accepted,
                            EventsFor(before, current, removed), taken)
        decreases todo
      {
        var key :| key in todo;
        VisitOne(start.seen.Keys, todo, visited, key);
        StillThere(before, start, current, visited, todo, key);
        StepsExtend(start, current, _ => true, visited, key);
        removed, taken := RemoveKey(key, current, before, removed, taken, old(events.queue), old(events.accepted));
        todo, visited := todo - {key}, visited + [key];
      }
      RemovedAll(before, start, current, visited);
    }

    /** One turn of the second loop. */
    method RemoveKey(key: Key, current: Known, ghost before: Known, ghost removed: seq<Key>, ghost taken: seq<nat>,
                     ghost queue: seq<Event>, ghost log: seq<Event>)
      returns (ghost removed': seq<Key>, ghost taken': seq<nat>)
      requires key in current || (key in seen && key in before && seen[key] == before[key])
      requires Delivered(queue, log, events.queue, events.accepted, EventsFor(before, current, removed), taken)
      modifies this`seen, this`byPath, events
      ensures Progress(seen, byPath, removed') == RemoveStep(Progress(old(seen), old(byPath), removed), current, key)
      ensures Delivered(queue, log, events.queue, events.accepted, EventsFor(before, current, removed'), taken')
    {
      removed', taken' := removed, taken;
      if key !in current {
        var info := seen[key];
        seen := seen - {key};
        byPath := byPath - {info.path};
        removed', taken' := SendKey(before, current, removed, taken, key, DeviceRemoved(info), queue, log);
      }
    }
  }

  /** A key the second loop has not looked at is still known as before. */
  lemma StillThere(before: Known, start: Progress, current: Known, visited: seq<Key>, todo: set<Key>, key: Key)
    requires start.keys == [] && Extends(start.seen, before, current) && Visiting(start.seen.Keys, todo, visited)
             && key in todo
    ensures var seen := RemoveSteps(start, current, visited).seen;
            key in current || (key in seen && key in before && seen[key] == before[key])
  {
    ListsHasNoRepeats(visited, start.seen.Keys - todo);
    RemovingSteps(before, start, current, visited);
  }

  // What a scan promises.

  lemma AnnouncementsCount(told: Told, seen: Known, likely: Info -> bool)
    requires Announces(told, seen, likely)
    ensures |Announcements(told, seen)| == |told.added| + |told.removed|
    ensures |Announcements(told, seen)| == |NewBoards(seen, told.current, likely)| + |Gone(seen, told.current)|
  {
    OneEventEach(seen, told.current, told.added + told.removed);
  }

  /**
   With nobody receiving during the scan, every announcement gets into the channel exactly when the queued events,
   the new boards and the devices that are gone are together at most ten. Otherwise exactly the first ones that fit
   get in.
   */
  lemma AllAnnouncedIff(told: Told, seen: Known, likely: Info -> bool, queue: seq<Event>)
    requires Announces(told, seen, likely) && |queue| <= CAPACITY
    requires |told.taken| == |Announcements(told, seen)| && Undisturbed(told.taken)
    ensures var all := Announcements(told, seen);
            var (after, accepted) := Deliver(queue, all, told.taken);
            && (accepted == all <==>
                 |queue| + |NewBoards(seen, told.current, likely)| + |Gone(seen, told.current)|
                 <= CAPACITY)
            && accepted == all[..Smaller(CAPACITY - |queue|, |all|)]
  {
    AnnouncementsCount(told, seen, likely);
    EverythingFitsIff(queue, Announcements(told, seen), told.taken);
    FirstThatFit(queue, Announcements(told, seen), told.taken);
  }

  /** A receiver that takes events meanwhile can only add to that. */
  lemma AnnouncedWhenThereIsRoom(told: Told, seen: Known, likely: Info -> bool, queue: seq<Event>)
    requires Announces(told, seen, likely) && |told.taken| == |Announcements(told, seen)|
    requires |queue| + |NewBoards(seen, told.current, likely)| + |Gone(seen, told.current)| <= CAPACITY
    ensures Deliver(queue, Announcements(told, seen), told.taken).1 == Announcements(told, seen)
  {
    AnnouncementsCount(told, seen, likely);
    var all := Announcements(told, seen);
    ReceivingOnlyHelps(queue, all, told.taken);
    assert all[..|all|] == all;
  }

  /** Announced or not, the current devices are known, so a scan that finds the same again announces nothing. */
  lemma NothingIsAnnouncedTwice(seen: Known, current: Known, likely: Info -> bool)
    ensures Merged(seen, current).Keys == current.Keys
    ensures NewBoards(Merged(seen, current), current, likely) == {} && Gone(Merged(seen, current), current) == {}
  {
  }

  /** A known device that every scan finds stays known, so no scan announces it, announced before or not. */
  lemma {:induction false} KnownIsNotAnnounced(seen: Known, scans: seq<Option<Known>>, key: Key, current: Known,
                                               likely: Info -> bool)
    requires key in seen && forall i :: 0 <= i < |scans| && scans[i].Some? ==> key in scans[i].value
    ensures key in AfterScans(seen, scans) && key !in NewBoards(AfterScans(seen, scans), current, likely)
    decreases |scans|
  {
    if scans != [] {
      KnownIsNotAnnounced(seen, scans[..|scans| - 1], key, current, likely);
    }
  }

  lemma {:induction false} EventsMean(seen: Known, current: Known, keys: seq<Key>, e: Event)
    ensures e in EventsFor(seen, current, keys) <==>
              exists k :: k in keys && (if k in current then e == DeviceAdded(current[k])
                                        else k in seen && e == DeviceRemoved(seen[k]))
    decreases |keys|
  {
    if keys != [] {
      var last, before := keys[|keys| - 1], keys[..|keys| - 1];
      EventsMean(seen, current, before, e);
      assert forall k :: k in keys <==> k in before || k == last;
    }
  }

  /** What is announced: a board that was not known and looks like one, and that a known device is gone. */
  lemma AnnouncementsMean(told: Told, seen: Known, likely: Info -> bool, e: Event)
    requires Announces(told, seen, likely)
    ensures e in Announcements(told, seen) <==>
              || (exists k :: k in told.current && k !in seen && likely(told.current[k])
                           && e == DeviceAdded(told.current[k]))
              || (exists k :: k in seen && k !in told.current && e == DeviceRemoved(seen[k]))
  {
    EventsMean(seen, told.current, told.added + told.removed, e);
    assert forall k :: k in told.added + told.removed <==>
             k in NewBoards(seen, told.current, likely) || k in Gone(seen, told.current);
  }

  /** A board with a serial number that turns up at another port is the same device: it is neither new nor gone. */
  lemma MovedBoardIsKnown(seen: Known, info: Info, moved: Info, current: Known, likely: Info -> bool)
    requires info.serial != "" && moved == info.(path := moved.path, realPath := moved.realPath)
    requires DeviceKey(info) in seen && DeviceKey(moved) in current
    ensures DeviceKey(moved) !in NewBoards(seen, current, likely) && DeviceKey(moved) !in Gone(seen, current)
    ensures Merged(seen, current)[DeviceKey(moved)] == seen[DeviceKey(info)]
  {
  }

  /** Devices without a serial number are told apart by their paths, boards of one kind by their serial numbers. */
  lemma KeysTellApart(a: Info, b: Info)
    ensures a.serial == "" && b.serial == "" ==> (DeviceKey(a) == DeviceKey(b) <==> a.path == b.path)
    ensures a.serial != "" && b.serial != "" ==>
              (DeviceKey(a) == DeviceKey(b) <==> a.serial == b.serial && a.vid == b.vid && a.pid == b.pid)
    ensures (a.serial == "") != (b.serial == "") ==> DeviceKey(a) != DeviceKey(b)
  {
  }

  /** A current device is found by its path after a scan exactly when no device that is gone was known there. */
  lemma FoundByPathIff(paths: Paths, now: Paths, seen: Known, current: Known, key: Key)
    requires Indexed(paths, now, seen, current) && key in current
    ensures var path := current[key].path;
            path in now <==> !Vacated(seen, Gone(seen, current), path)
    ensures current[key].path in now ==>
              DeviceOf(now[current[key].path], current, current.Keys)
              && now[current[key].path].path == current[key].path
  {
    assert Occupied(current, current.Keys, current[key].path);
  }

  /** A device found where another has gone in the same scan is known, but not in the index. */
  lemma ReplacedDeviceIsForgotten(paths: Paths, now: Paths, gone: Info, found: Info)
    requires gone.path == found.path && DeviceKey(gone) != DeviceKey(found)
    requires Indexed(paths, now, map[DeviceKey(gone) := gone], map[DeviceKey(found) := found])
    ensures DeviceKey(found) in Merged(map[DeviceKey(gone) := gone], map[DeviceKey(found) := found])
            && found.path !in now
  {
    var seen, current := map[DeviceKey(gone) := gone], map[DeviceKey(found) := found];
    assert DeviceKey(gone) in Gone(seen, current);
    FoundByPathIff(paths, now, seen, current, DeviceKey(found));
  }
}
