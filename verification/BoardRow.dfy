/** Many boards found by one scan: each on a serial port of its own, and each with its own serial number. */
module BoardRow {
  import opened Wrappers
  import opened Bytes
  import opened EventQueue
  import opened Ports
  import opened Watcher

  function Decimal(n: nat): (s: string)
    ensures s != ""
  {
    (if n < 10 then "" else Decimal(n / 10)) + [('0' as int + n % 10) as char]
  }

  lemma {:induction false} DecimalsDiffer(m: nat, n: nat)
    requires Decimal(m) == Decimal(n)
    ensures m == n
  {
    var s, t := Decimal(m), Decimal(n);
    assert s[|s| - 1] == t[|t| - 1] && s[..|s| - 1] == t[..|t| - 1];
    assert s[..|s| - 1] == if m < 10 then "" else Decimal(m / 10);
    assert t[..|t| - 1] == if n < 10 then "" else Decimal(n / 10);
    if m >= 10 && n >= 10 {
      DecimalsDiffer(m / 10, n / 10);
    }
  }

  const ACM: string := "/dev/ttyACM"

  function PortAt(n: nat): Port { Port(ACM + Decimal(n), ACM + Decimal(n)) }

  function BoardAt(n: nat): Info { Info(PortAt(n).path, PortAt(n).realPath, Decimal(n), 0x303A, 0x1001) }

  lemma PortsDiffer(m: nat, n: nat)
    ensures PortAt(m) == PortAt(n) ==> m == n
    ensures DeviceKey(BoardAt(m)) == DeviceKey(BoardAt(n)) ==> m == n
  {
    assert PortAt(m).path[|ACM|..] == Decimal(m) && PortAt(n).path[|ACM|..] == Decimal(n);
    if Decimal(m) == Decimal(n) {
      DecimalsDiffer(m, n);
    }
  }

  /** The ports of the first n boards. */
  function Row(n: nat): (ports: seq<Port>)
    ensures |ports| == n && forall i :: 0 <= i < n ==> ports[i] == PortAt(i)
  {
    seq(n, i requires 0 <= i < n => PortAt(i))
  }

  function Lookup(p: Port, n: nat): Option<Info> {
    if n == 0 then None else if p == PortAt(n - 1) then Some(BoardAt(n - 1)) else Lookup(p, n - 1)
  }

  /** What asking a port for its device gives. */
  function Resolver(n: nat): Port -> Option<Info> {
    (p: Port) => Lookup(p, n)
  }

  lemma {:induction false} PortResolved(i: nat, n: nat)
    requires i < n
    ensures Lookup(PortAt(i), n) == Some(BoardAt(i))
  {
    PortsDiffer(i, n - 1);
    if i < n - 1 {
      PortResolved(i, n - 1);
    }
  }

  function Boards(n: nat): Known {
    if n == 0 then map[] else Boards(n - 1)[DeviceKey(BoardAt(n - 1)) := BoardAt(n - 1)]
  }

  lemma {:induction false} NotYet(n: nat, i: nat)
    requires n <= i
    ensures DeviceKey(BoardAt(i)) !in Boards(n)
  {
    if n > 0 {
      PortsDiffer(n - 1, i);
      NotYet(n - 1, i);
    }
  }

  lemma OneMoreKey(known: Known, key: Key, info: Info)
    requires key !in known
    ensures |known[key := info]| == |known| + 1
  {
    assert known[key := info].Keys == known.Keys + {key};
  }

  lemma {:induction false} BoardsCount(n: nat)
    ensures |Boards(n)| == n
  {
    if n > 0 {
      BoardsCount(n - 1);
      NotYet(n - 1, n - 1);
      OneMoreKey(Boards(n - 1), DeviceKey(BoardAt(n - 1)), BoardAt(n - 1));
    }
  }

  lemma OneMoreFound(ports: seq<Port>, k: nat, resolve: Port -> Option<Info>, found: Info)
    requires k < |ports| && resolve(ports[k]) == Some(found)
    requires found.path == ports[k].path && found.realPath == ports[k].realPath
    ensures Current(ports, k + 1, resolve) == Current(ports, k, resolve)[DeviceKey(found) := found]
  {
  }

  lemma {:induction false} RowResolved(n: nat, k: nat)
    requires k <= n
    ensures Current(Row(n), k, Resolver(n)) == Boards(k)
  {
    if k > 0 {
      var ports, key := Row(n), DeviceKey(BoardAt(k - 1));
      assert Current(ports, k, Resolver(n)) == Current(ports, k - 1, Resolver(n))[key := BoardAt(k - 1)] by {
        PortResolved(k - 1, n);
        OneMoreFound(ports, k - 1, Resolver(n), BoardAt(k - 1));
      }
      assert Current(ports, k - 1, Resolver(n)) == Boards(k - 1) by {
        RowResolved(n, k - 1);
      }
    }
  }

  lemma {:induction false} NoPairs(ports: seq<Port>, k: nat, choice: Port -> Port)
    requires k <= |ports| && forall i :: 0 <= i < |ports| ==> Base(ports[i]) == ""
    ensures Kept(ports, k, choice) == ports[..k]
  {
    if k > 0 {
      NoPairs(ports, k - 1, choice);
      assert ports[..k] == ports[..k - 1] + [ports[k - 1]];
    }
  }

  lemma NoBase(n: nat)
    ensures Base(PortAt(n)) == ""
  {
    var path := PortAt(n).path;
    assert path[5] == 't' && CU[5] == 'c' && path[8] == 'A' && TTY[8] == '.';
  }

  lemma {:induction false} AllKept(ports: seq<Port>, ignored: Port -> bool)
    requires forall i :: 0 <= i < |ports| ==> !ignored(ports[i])
    ensures Unignored(ports, ignored) == ports
    decreases |ports|
  {
    if ports != [] {
      AllKept(ports[1..], ignored);
      assert [ports[0]] + ports[1..] == ports;
    }
  }

  /** A scan that finds the row's ports finds its boards. */
  lemma RowFound(n: nat, ignored: Port -> bool)
    requires forall i :: 0 <= i < n ==> !ignored(PortAt(i))
    ensures var ports := Unignored(Deduplicated(Row(n)), ignored);
            Current(ports, |ports|, Resolver(n)) == Boards(n)
  {
    var ports := Row(n);
    forall i | 0 <= i < n
      ensures Base(ports[i]) == ""
    {
      NoBase(i);
    }
    NoPairs(ports, n, Chooser(ports));
    assert ports[..n] == ports;
    AllKept(ports, ignored);
    RowResolved(n, n);
  }

  /**
   The first scan finds n boards while nobody receives: all are known, and exactly the first ten announcements get
   into the channel. No later scan that finds the same boards announces one, so the others stay unannounced.
   */
  lemma RowAnnounced(n: nat, told: Told, ignored: Port -> bool, likely: Info -> bool)
    requires forall i :: 0 <= i < n ==> !ignored(PortAt(i))
    requires forall k :: k in Boards(n) ==> likely(Boards(n)[k])
    requires var ports := Unignored(Deduplicated(Row(n)), ignored);
             told.current == Current(ports, |ports|, Resolver(n))
    requires Announces(told, map[], likely) && Undisturbed(told.taken)
    requires |told.taken| == |Announcements(told, map[])|
    ensures |told.current| == n && |Announcements(told, map[])| == n
    ensures Deliver([], Announcements(told, map[]), told.taken).1 == Announcements(told, map[])[..Smaller(CAPACITY, n)]
    ensures var after := AfterScans(map[], [Some(told.current)]);
            after == told.current && NewBoards(after, told.current, likely) == {} && Gone(after, told.current) == {}
  {
    RowFound(n, ignored);
    BoardsCount(n);
    AllAreNew(told.current, likely);
    AnnouncementsCount(told, map[], likely);
    FirstThatFit([], Announcements(told, map[]), told.taken);
    NothingIsAnnouncedTwice(map[], told.current, likely);
    FirstScan(told.current);
  }

  lemma AllAreNew(current: Known, likely: Info -> bool)
    requires forall k :: k in current ==> likely(current[k])
    ensures |NewBoards(map[], current, likely)| == |current| && Gone(map[], current) == {}
  {
    assert NewBoards(map[], current, likely) == current.Keys;
  }

  lemma FirstScan(current: Known)
    ensures AfterScans(map[], [Some(current)]) == current && Merged(map[], current) == current
  {
    assert [Some(current)][..0] == [];
  }

  /** Eleven boards are one too many. */
  lemma EleventhBoardIsLost(told: Told, ignored: Port -> bool, likely: Info -> bool)
    requires forall i :: 0 <= i < 11 ==> !ignored(PortAt(i))
    requires forall k :: k in Boards(11) ==> likely(Boards(11)[k])
    requires var ports := Unignored(Deduplicated(Row(11)), ignored);
             told.current == Current(ports, |ports|, Resolver(11))
    requires Announces(told, map[], likely) && Undisturbed(told.taken)
    requires |told.taken| == |Announcements(told, map[])|
    ensures |Announcements(told, map[])| == 11 && |Deliver([], Announcements(told, map[]), told.taken).1| == 10
    ensures AfterScans(map[], [Some(told.current)]) == told.current
    ensures NewBoards(told.current, told.current, likely) == {}
  {
    RowAnnounced(11, told, ignored, likely);
  }

  lemma NothingToAnnounce(told: Told, likely: Info -> bool, queue: seq<Event>)
    requires Announces(told, told.current, likely) && |told.taken| == |Announcements(told, told.current)|
    ensures Announcements(told, told.current) == []
    ensures Deliver(queue, Announcements(told, told.current), told.taken).1 == []
  {
    NothingIsAnnouncedTwice(told.current, told.current, likely);
    assert Merged(told.current, told.current) == told.current;
    AnnouncementsCount(told, told.current, likely);
  }

  /**
   A new watcher that scans the row twice: if nobody receives during the first scan, ten announcements at most have
   got into the channel in the end, however many boards are known.
   */
  method ScanTwice(w: PortWatcher, n: nat, ignored: Port -> bool, likely: Info -> bool) returns (ghost taken: seq<nat>)
    requires w.seen == map[] && !w.paused && w.events.queue == [] && w.events.accepted == []
    requires forall i :: 0 <= i < n ==> !ignored(PortAt(i))
    requires forall k :: k in Boards(n) ==> likely(Boards(n)[k])
    modifies w`seen, w`byPath, w.events
    ensures w.seen == Boards(n) && |w.seen| == n
    ensures Undisturbed(taken) ==> |w.events.accepted| == Smaller(CAPACITY, n)
  {
    RowFound(n, ignored);
    BoardsCount(n);
    FirstScan(Boards(n));
    var found := Row(n);
    ghost var first := w.Scan(Some(found), ignored, Resolver(n), likely);
    taken := first.value.taken;
    if Undisturbed(taken) {
      RowAnnounced(n, first.value, ignored, likely);
    }
    ghost var queue, accepted := w.events.queue, w.events.accepted;
    ghost var second := w.Scan(Some(found), ignored, Resolver(n), likely);
    SecondScan(Boards(n));
    NothingToAnnounce(second.value, likely, queue);
  }

  lemma SecondScan(current: Known)
    ensures AfterScans(current, [Some(current)]) == current
  {
    assert [Some(current)][..0] == [];
  }
}
