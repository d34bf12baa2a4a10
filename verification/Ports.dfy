/** One port for each macOS tty/cu pair (`deduplicatePorts` of internal/device/watcher.go). */
module Ports {
  import opened Wrappers

  datatype Port = Port(path: string, realPath: string)

  const CU: string := "/dev/cu."
  const TTY: string := "/dev/tty."

  predicate Contains(s: string, sub: string) {
    sub <= s || (s != "" && Contains(s[1..], sub))
  }

  /** The name that a tty entry and its cu entry share; empty for every other path. */
  function DeviceBaseName(path: string): string {
    if CU <= path then path[|CU|..]
    else if TTY <= path && !Contains(path, "ttyUSB") && !Contains(path, "ttyACM") then path[|TTY|..]
    else ""
  }

  function Base(p: Port): string { DeviceBaseName(p.path) }

  predicate IsCu(p: Port) { CU <= p.path }

  /** The ports with the given base name, in order. */
  function Group(ports: seq<Port>, base: string): seq<Port> {
    if ports == [] then []
    else Group(ports[..|ports| - 1], base) + (if Base(ports[|ports| - 1]) == base then [ports[|ports| - 1]] else [])
  }

  /** The first cu port of a group, or else its first port. */
  function Preferred(group: seq<Port>): Port
    requires group != []
  {
    if FirstCu(group).Some? then FirstCu(group).value else group[0]
  }

  function FirstCu(group: seq<Port>): Option<Port> {
    if group == [] then None else if IsCu(group[0]) then Some(group[0]) else FirstCu(group[1..])
  }

  predicate Seen(ports: seq<Port>, base: string) {
    exists i :: 0 <= i < |ports| && Base(ports[i]) == base
  }

  lemma {:induction false} GroupMembers(ports: seq<Port>, base: string)
    ensures forall p :: p in Group(ports, base) <==> p in ports && Base(p) == base
    ensures Group(ports, base) != [] <==> Seen(ports, base)
  {
    if ports != [] {
      GroupMembers(ports[..|ports| - 1], base);
      assert ports == ports[..|ports| - 1] + [ports[|ports| - 1]];
    }
  }

  lemma {:induction false} FirstCuFound(group: seq<Port>)
    ensures match FirstCu(group)
            case Some(p) => p in group && IsCu(p)
            case None => forall p :: p in group ==> !IsCu(p)
  {
    if group != [] {
      FirstCuFound(group[1..]);
    }
  }

  /** The port kept for the base name of p. */
  function Choice(ports: seq<Port>, p: Port): Port {
    var group := Group(ports, Base(p));
    if group == [] then p else Preferred(group)
  }

  /** What port k adds to the result: itself, the one chosen among the ports of its base name, or nothing. */
  function Adds(ports: seq<Port>, k: nat, choice: Port -> Port): seq<Port>
    requires k < |ports|
  {
    if Base(ports[k]) == "" then [ports[k]] else if Seen(ports[..k], Base(ports[k])) then [] else [choice(ports[k])]
  }

  function Kept(ports: seq<Port>, k: nat, choice: Port -> Port): seq<Port>
    requires k <= |ports|
  {
    if k == 0 then [] else Kept(ports, k - 1, choice) + Adds(ports, k - 1, choice)
  }

  function Chooser(ports: seq<Port>): Port -> Port { p => Choice(ports, p) }

  function Deduplicated(ports: seq<Port>): seq<Port> { Kept(ports, |ports|, Chooser(ports)) }

  method DeduplicatePorts(ports: seq<Port>) returns (result: seq<Port>)
    ensures result == Deduplicated(ports)
  {
    var groups := GroupByBase(ports);
    result := [];
    var seen: set<string> := {};
    for k := 0 to |ports|
      invariant result == Kept(ports, k, Chooser(ports))
      invariant SeenSoFar(ports, k, seen)
    {
      var more := Keep(ports, k, groups, seen);
      SeenNext(ports, k, seen);
      var base := DeviceBaseName(ports[k].path);
      if base != "" {
        seen := seen + {base};
      }
      result := result + more;
    }
  }

  ghost predicate SeenSoFar(ports: seq<Port>, k: nat, seen: set<string>)
    requires k <= |ports|
  {
    forall b :: b in seen <==> b != "" && Seen(ports[..k], b)
  }

  lemma SeenNext(ports: seq<Port>, k: nat, seen: set<string>)
    requires k < |ports| && SeenSoFar(ports, k, seen)
    ensures SeenSoFar(ports, k + 1, if Base(ports[k]) != "" then seen + {Base(ports[k])} else seen)
  {
    SeenOneMore(ports, k);
  }

  /** One turn of the loop. */
  method Keep(ports: seq<Port>, k: nat, groups: map<string, seq<Port>>, seen: set<string>) returns (more: seq<Port>)
    requires k < |ports| && Grouped(ports, groups) && SeenSoFar(ports, k, seen)
    ensures more == Adds(ports, k, Chooser(ports))
  {
    var base := DeviceBaseName(ports[k].path);
    if base == "" {
      return [ports[k]];
    }
    if base in seen {
      return [];
    }
    var chosen := ChooseFrom(ports, k, groups);
    return [chosen];
  }

  method ChooseFrom(ports: seq<Port>, k: nat, groups: map<string, seq<Port>>) returns (chosen: Port)
    requires k < |ports| && Base(ports[k]) != "" && Grouped(ports, groups)
    ensures chosen == Choice(ports, ports[k])
  {
    var base := DeviceBaseName(ports[k].path);
    GroupMembers(ports, base);
    assert Seen(ports, base);
    var group := groups[base];
    if |group| == 1 {
      assert group[1..] == [] && FirstCu(group[1..]) == None;
      return group[0];
    }
    chosen := Choose(group);
  }

  ghost predicate Grouped(ports: seq<Port>, groups: map<string, seq<Port>>) {
    && (forall b :: b in groups <==> b != "" && Seen(ports, b))
    && (forall b :: b in groups ==> groups[b] == Group(ports, b))
  }

  lemma NothingMore(ports: seq<Port>)
    ensures ports + [] == ports
  {
  }

  lemma PrefixOneMore(ports: seq<Port>, k: nat)
    requires k < |ports|
    ensures ports[..k + 1] == ports[..k] + [ports[k]]
  {
  }

  lemma SeenOneMore(ports: seq<Port>, k: nat)
    requires k < |ports|
    ensures forall b :: Seen(ports[..k + 1], b) <==> Seen(ports[..k], b) || Base(ports[k]) == b
  {
    assert ports[..k + 1] == ports[..k] + [ports[k]];
    forall b
      ensures Seen(ports[..k + 1], b) <==> Seen(ports[..k], b) || Base(ports[k]) == b
    {
      if Seen(ports[..k], b) {
        var i :| 0 <= i < k && Base(ports[..k][i]) == b;
        assert Base(ports[..k + 1][i]) == b;
      }
      assert ports[..k + 1][k] == ports[k];
    }
  }

  lemma GroupOneMore(ports: seq<Port>, k: nat, base: string)
    requires k < |ports|
    ensures Group(ports[..k + 1], base) == Group(ports[..k], base) + if Base(ports[k]) == base then [ports[k]] else []
    ensures !Seen(ports[..k], base) ==> Group(ports[..k], base) == []
  {
    assert ports[..k + 1][..k] == ports[..k];
    GroupMembers(ports[..k], base);
  }

  lemma GroupedOneMore(ports: seq<Port>, k: nat, groups: map<string, seq<Port>>)
    requires k < |ports| && Grouped(ports[..k], groups)
    ensures var base := Base(ports[k]);
            Grouped(ports[..k + 1],
                    if base == "" then groups
                    else groups[base := (if base in groups then groups[base] else []) + [ports[k]]])
  {
    SeenOneMore(ports, k);
    forall b
      ensures Group(ports[..k + 1], b) == Group(ports[..k], b) + if Base(ports[k]) == b then [ports[k]] else []
      ensures !Seen(ports[..k], b) ==> Group(ports[..k], b) == []
    {
      GroupOneMore(ports, k, b);
    }
  }

  method GroupByBase(ports: seq<Port>) returns (groups: map<string, seq<Port>>)
    ensures Grouped(ports, groups)
  {
    groups := map[];
    for k := 0 to |ports|
      invariant Grouped(ports[..k], groups)
    {
      var base := DeviceBaseName(ports[k].path);
      GroupedOneMore(ports, k, groups);
      if base != "" {
        groups := groups[base := (if base in groups then groups[base] else []) + [ports[k]]];
      }
    }
    assert ports[..|ports|] == ports;
  }

  method Choose(group: seq<Port>) returns (preferred: Port)
    requires group != []
    ensures preferred == Preferred(group)
  {
    for i := 0 to |group|
      invariant FirstCu(group[i..]) == FirstCu(group)
    {
      if CU <= group[i].path {
        return group[i];
      }
      assert group[i..][1..] == group[i + 1..];
    }
    return group[0];
  }

  // What deduplication promises.

  function Others(ports: seq<Port>): seq<Port> {
    if ports == [] then []
    else Others(ports[..|ports| - 1]) + if Base(ports[|ports| - 1]) == "" then [ports[|ports| - 1]] else []
  }

  ghost predicate OnePerBase(ports: seq<Port>) {
    forall i, j :: 0 <= i < j < |ports| && Base(ports[i]) != "" ==> Base(ports[i]) != Base(ports[j])
  }

  lemma PreferredOfBase(ports: seq<Port>, base: string)
    requires Seen(ports, base)
    ensures Group(ports, base) != []
    ensures var p := Preferred(Group(ports, base));
            p in ports && Base(p) == base && (IsCu(p) <==> exists q :: q in ports && Base(q) == base && IsCu(q))
  {
    GroupMembers(ports, base);
    FirstCuFound(Group(ports, base));
  }

  ghost predicate KeepsBase(choice: Port -> Port) {
    forall p :: Base(choice(p)) == Base(p)
  }

  lemma ChooserKeepsBase(ports: seq<Port>)
    ensures KeepsBase(Chooser(ports))
  {
    forall p
      ensures Base(Choice(ports, p)) == Base(p)
    {
      GroupMembers(ports, Base(p));
      if Seen(ports, Base(p)) {
        PreferredOfBase(ports, Base(p));
      }
    }
  }

  /** One of the ports, and not a tty port that has a cu port beside it. */
  ghost predicate WellChosen(p: Port, ports: seq<Port>) {
    p in ports && (Base(p) != "" && !IsCu(p) ==> forall q :: q in ports && Base(q) == Base(p) ==> !IsCu(q))
  }

  lemma ChoosesWell(ports: seq<Port>, p: Port)
    requires Seen(ports, Base(p))
    ensures WellChosen(Choice(ports, p), ports)
  {
    GroupMembers(ports, Base(p));
    PreferredOfBase(ports, Base(p));
  }

  lemma {:induction false} KeptSeen(ports: seq<Port>, k: nat, choice: Port -> Port, base: string)
    requires k <= |ports| && KeepsBase(choice)
    ensures Seen(Kept(ports, k, choice), base) <==> Seen(ports[..k], base)
  {
    if k > 0 {
      KeptSeen(ports, k - 1, choice, base);
      var more := Adds(ports, k - 1, choice);
      PrefixOneMore(ports, k - 1);
      SeenStep(Kept(ports, k - 1, choice), more, ports[..k - 1], ports[k - 1], base);
    }
  }

  lemma SeenAppend(ports: seq<Port>, p: Port, base: string)
    ensures Seen(ports + [p], base) <==> Seen(ports, base) || Base(p) == base
  {
    if Seen(ports, base) {
      var i :| 0 <= i < |ports| && Base(ports[i]) == base;
      assert Base((ports + [p])[i]) == base;
    }
    if Base(p) == base {
      assert Base((ports + [p])[|ports|]) == base;
    }
  }

  lemma SeenStep(before: seq<Port>, more: seq<Port>, prefix: seq<Port>, p: Port, base: string)
    requires Seen(before, base) <==> Seen(prefix, base)
    requires if more == [] then Seen(prefix, Base(p)) else more == [more[0]] && Base(more[0]) == Base(p)
    ensures Seen(before + more, base) <==> Seen(prefix + [p], base)
  {
    SeenAppend(prefix, p, base);
    if more == [] {
      NothingMore(before);
    } else {
      SeenAppend(before, more[0], base);
    }
  }

  lemma {:induction false} KeptOnePerBase(ports: seq<Port>, k: nat, choice: Port -> Port)
    requires k <= |ports| && KeepsBase(choice)
    ensures OnePerBase(Kept(ports, k, choice))
  {
    if k > 0 {
      var before, p := Kept(ports, k - 1, choice), ports[k - 1];
      KeptOnePerBase(ports, k - 1, choice);
      KeptSeen(ports, k - 1, choice, Base(p));
      if Base(p) == "" {
        OneMoreBase(before, p);
      } else if Seen(ports[..k - 1], Base(p)) {
        NothingMore(before);
      } else {
        OneMoreBase(before, choice(p));
      }
    }
  }

  lemma OneMoreBase(before: seq<Port>, p: Port)
    requires OnePerBase(before) && (Base(p) == "" || !Seen(before, Base(p)))
    ensures OnePerBase(before + [p])
  {
  }

  lemma {:induction false} KeptOthers(ports: seq<Port>, k: nat, choice: Port -> Port)
    requires k <= |ports| && KeepsBase(choice)
    ensures Others(Kept(ports, k, choice)) == Others(ports[..k])
  {
    if k > 0 {
      KeptOthers(ports, k - 1, choice);
      var more := Adds(ports, k - 1, choice);
      PrefixOneMore(ports, k - 1);
      OthersStep(Kept(ports, k - 1, choice), more, ports[..k - 1], ports[k - 1]);
    }
  }

  lemma OthersStep(before: seq<Port>, more: seq<Port>, prefix: seq<Port>, p: Port)
    requires Others(before) == Others(prefix)
    requires if more == [] then Base(p) != ""
             else more == [more[0]] && Base(more[0]) == Base(p) && (Base(p) == "" ==> more[0] == p)
    ensures Others(before + more) == Others(prefix + [p])
  {
    OthersOneMore(prefix, p);
    if more == [] {
      NothingMore(before);
    } else {
      OthersOneMore(before, more[0]);
    }
  }

  lemma OthersOneMore(before: seq<Port>, p: Port)
    ensures Others(before + [p]) == Others(before) + if Base(p) == "" then [p] else []
  {
    assert (before + [p])[..|before|] == before;
  }

  /** Every port that is kept stands for one of the ports. */
  lemma {:induction false} KeptOrigin(ports: seq<Port>, k: nat, choice: Port -> Port, p: Port) returns (i: nat)
    requires k <= |ports| && p in Kept(ports, k, choice)
    ensures i < k && p == if Base(ports[i]) == "" then ports[i] else choice(ports[i])
  {
    if p in Kept(ports, k - 1, choice) {
      i := KeptOrigin(ports, k - 1, choice, p);
    } else {
      i := k - 1;
      assert p in Adds(ports, i, choice);
    }
  }

  lemma KeptPorts(ports: seq<Port>, p: Port)
    requires p in Deduplicated(ports)
    ensures WellChosen(p, ports)
  {
    var i := KeptOrigin(ports, |ports|, Chooser(ports), p);
    if Base(ports[i]) != "" {
      assert Seen(ports, Base(ports[i]));
      ChoosesWell(ports, ports[i]);
    }
  }

  /**
   Exactly one port is kept for each tty/cu base name, a cu port whenever there is one; all other ports are kept,
   in their order.
   */
  lemma DeduplicationKeeps(ports: seq<Port>)
    ensures var r := Deduplicated(ports);
            && (forall p :: p in r ==> WellChosen(p, ports))
            && OnePerBase(r)
            && (forall b :: Seen(r, b) <==> Seen(ports, b))
            && Others(r) == Others(ports)
  {
    ChooserKeepsBase(ports);
    KeptOnePerBase(ports, |ports|, Chooser(ports));
    forall b {
      KeptSeen(ports, |ports|, Chooser(ports), b);
    }
    forall p | p in Deduplicated(ports) {
      KeptPorts(ports, p);
    }
    KeptOthers(ports, |ports|, Chooser(ports));
    assert ports[..|ports|] == ports;
  }

  lemma {:induction false} KeptAll(ports: seq<Port>, k: nat)
    requires OnePerBase(ports) && k <= |ports|
    ensures Kept(ports, k, Chooser(ports)) == ports[..k]
  {
    if k > 0 {
      assert Adds(ports, k - 1, Chooser(ports)) == [ports[k - 1]] by {
        if Base(ports[k - 1]) != "" {
          ChoosesItself(ports, k - 1);
        }
      }
      KeptAll(ports, k - 1);
      PrefixOneMore(ports, k - 1);
    }
  }

  lemma ChoosesItself(ports: seq<Port>, k: nat)
    requires OnePerBase(ports) && k < |ports| && Base(ports[k]) != ""
    ensures !Seen(ports[..k], Base(ports[k])) && Choice(ports, ports[k]) == ports[k]
  {
    assert Seen(ports, Base(ports[k]));
    PreferredOfBase(ports, Base(ports[k]));
  }

  lemma DeduplicationIsIdempotent(ports: seq<Port>)
    ensures Deduplicated(Deduplicated(ports)) == Deduplicated(ports)
  {
    DeduplicationKeeps(ports);
    KeptAll(Deduplicated(ports), |Deduplicated(ports)|);
  }

  // The same promises on the paths themselves.

  ghost predicate Occurs(path: string, part: string) {
    exists before: string, after: string :: path == before + part + after
  }

  lemma {:induction false} ContainsIff(s: string, part: string)
    ensures Contains(s, part) <==> Occurs(s, part)
  {
    if part <= s {
      assert s == "" + part + s[|part|..];
    }
    if s != "" {
      ContainsIff(s[1..], part);
      if Occurs(s[1..], part) {
        var before: string, after: string :| s[1..] == before + part + after;
        assert s == ([s[0]] + before) + part + after;
      }
    }
    if Occurs(s, part) {
      var before: string, after: string :| s == before + part + after;
      if before == "" {
        assert s[..|part|] == part;
      } else {
        assert s[1..] == before[1..] + part + after;
      }
    }
  }

  /** A tty entry of macOS, not one of the serial ports that Linux calls ttyUSB or ttyACM. */
  ghost predicate MacTty(path: string) {
    TTY <= path && !Occurs(path, "ttyUSB") && !Occurs(path, "ttyACM")
  }

  /** An entry that has no counterpart. */
  ghost predicate Single(path: string) {
    if CU <= path then path == CU else MacTty(path) ==> path == TTY
  }

  lemma BaseOfPath(path: string)
    ensures DeviceBaseName(path) == "" <==> Single(path)
    ensures forall x: string :: path == CU + x ==> DeviceBaseName(path) == x
    ensures forall x: string :: path == TTY + x && MacTty(path) ==> DeviceBaseName(path) == x
  {
    ContainsIff(path, "ttyUSB");
    ContainsIff(path, "ttyACM");
    if CU <= path {
      assert path == CU + path[|CU|..];
      assert path[5] == 'c' && TTY[5] == 't';
    } else if TTY <= path {
      assert path == TTY + path[|TTY|..];
    }
  }

  lemma BaseMeans(path: string, x: string)
    requires x != ""
    ensures DeviceBaseName(path) == x <==> path == CU + x || (path == TTY + x && MacTty(path))
  {
    BaseOfPath(path);
    if DeviceBaseName(path) == x {
      if CU <= path {
        assert path == CU + path[|CU|..];
      } else {
        ContainsIff(path, "ttyUSB");
        ContainsIff(path, "ttyACM");
        assert path == TTY + path[|TTY|..];
      }
    }
  }

  ghost predicate Named(p: Port, x: string) {
    p.path == CU + x || (p.path == TTY + x && MacTty(p.path))
  }

  /**
   Of the cu and tty entries of one name exactly one port is kept, and it is a cu port whenever there is one. So a cu
   port and its tty counterpart are never both kept.
   */
  lemma PairsAreMerged(ports: seq<Port>, x: string)
    requires x != ""
    ensures var r := Deduplicated(ports);
            && (forall i, j :: 0 <= i < j < |r| && Named(r[i], x) ==> !Named(r[j], x))
            && ((exists p :: p in r && Named(p, x)) <==> exists p :: p in ports && Named(p, x))
            && ((exists p :: p in r && p.path == CU + x) <==> exists p :: p in ports && p.path == CU + x)
            && forall p :: p in r ==> p in ports
  {
    var r := Deduplicated(ports);
    DeduplicationKeeps(ports);
    forall p: Port
      ensures Base(p) == x <==> Named(p, x)
    {
      BaseMeans(p.path, x);
    }
    SeenNamed(r, x);
    SeenNamed(ports, x);
    if p :| p in ports && p.path == CU + x {
      assert Named(p, x) && IsCu(p);
      var q :| q in r && Named(q, x);
      assert WellChosen(q, ports) && IsCu(q);
      assert CU <= q.path && TTY[5] == 't' && CU[5] == 'c';
    }
  }

  lemma SeenNamed(ports: seq<Port>, x: string)
    requires forall p: Port :: Base(p) == x <==> Named(p, x)
    ensures Seen(ports, x) <==> exists p :: p in ports && Named(p, x)
  {
    if p :| p in ports && Named(p, x) {
      var i :| 0 <= i < |ports| && ports[i] == p;
      assert Base(ports[i]) == x;
    }
  }

  ghost function Singles(ports: seq<Port>): seq<Port> {
    if ports == [] then []
    else Singles(ports[..|ports| - 1]) + if Single(ports[|ports| - 1].path) then [ports[|ports| - 1]] else []
  }

  lemma {:induction false} OthersAreSingles(ports: seq<Port>)
    ensures Others(ports) == Singles(ports)
  {
    if ports != [] {
      OthersAreSingles(ports[..|ports| - 1]);
      BaseOfPath(ports[|ports| - 1].path);
    }
  }

  /** All other ports are kept, in their order: Linux ports and whatever else has neither prefix. */
  lemma SinglesStay(ports: seq<Port>)
    ensures Singles(Deduplicated(ports)) == Singles(ports)
  {
    DeduplicationKeeps(ports);
    OthersAreSingles(ports);
    OthersAreSingles(Deduplicated(ports));
  }
}
