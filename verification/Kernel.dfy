/** The part of the Linux network namespace that the program reads and writes: links, policy rules and
    routing tables. Every call can fail for reasons outside the model; `Host.faults` counts those. */
module Kernel {
  import opened Cidr

  const MAIN_TABLE := 254

  datatype Rule = Rule(prio: int, table: int, dst: Bits)

  /** A route is a destination and the name of its device. */
  type Table = map<Bits, string>

  /** A table is present exactly while it holds routes, so equal routing state is equal data. */
  type Tables = m: map<int, Table> | forall t | t in m :: m[t] != map[]

  datatype Fib = Fib(rules: seq<Rule>, tables: Tables) {
    function TableOf(t: int): Table {
      if t in tables then tables[t] else map[]
    }

    function WithTable(t: int, routes: Table): (r: Fib)
      ensures r.rules == rules && r.TableOf(t) == routes
      ensures forall u | u != t :: r.TableOf(u) == TableOf(u)
    {
      var m := if routes == map[] then tables - {t} else tables[t := routes];
      Fib(rules, m)
    }
  }

  lemma {:induction false} FibExt(a: Fib, b: Fib)
    requires a.rules == b.rules && forall t :: a.TableOf(t) == b.TableOf(t)
    ensures a == b
  {
    forall t
      ensures t in a.tables <==> t in b.tables
      ensures t in a.tables ==> a.tables[t] == b.tables[t]
    {
      assert a.TableOf(t) == b.TableOf(t);
    }
    assert a.tables == b.tables;
  }

  datatype Link = Tunnel(remote: IP) | FlowBased(family: Family) | Dummy | Other

  datatype Net = Net(links: map<string, Link>, v4: Fib, v6: Fib) {
    function Of(f: Family): Fib {
      if f.V4? then v4 else v6
    }

    function With(f: Family, fib: Fib): Net {
      if f.V4? then this.(v4 := fib) else this.(v6 := fib)
    }
  }

  // ---- rules -------------------------------------------------------------------------------

  ghost predicate Distinct<T>(s: seq<T>) {
    forall i, j | 0 <= i < j < |s| :: s[i] != s[j]
  }

  /** Rules are kept in order of priority and no rule is listed twice. */
  ghost predicate RulesOk(rules: seq<Rule>) {
    rules != [] ==>
      && (forall x | x in rules[1..] :: rules[0].prio <= x.prio && rules[0] != x)
      && RulesOk(rules[1..])
  }

  /** A new rule goes behind every rule of the same or a smaller priority value. */
  function Insert(rules: seq<Rule>, r: Rule): (s: seq<Rule>)
    ensures |s| == |rules| + 1
  {
    if rules == [] || rules[0].prio > r.prio then [r] + rules
    else [rules[0]] + Insert(rules[1..], r)
  }

  lemma {:induction false} InsertMembers(rules: seq<Rule>, r: Rule)
    ensures forall x :: x in Insert(rules, r) <==> x == r || x in rules
  {
    if rules != [] && rules[0].prio <= r.prio {
      InsertMembers(rules[1..], r);
      assert rules == [rules[0]] + rules[1..];
    }
  }

  lemma {:induction false} InsertKeepsOk(rules: seq<Rule>, r: Rule)
    requires RulesOk(rules) && r !in rules
    ensures RulesOk(Insert(rules, r))
  {
    if rules == [] || rules[0].prio > r.prio {
      assert ([r] + rules)[1..] == rules;
      assert rules != [] ==> rules == [rules[0]] + rules[1..];
    } else {
      InsertKeepsOk(rules[1..], r);
      InsertMembers(rules[1..], r);
      var s := Insert(rules[1..], r);
      assert ([rules[0]] + s)[1..] == s;
    }
  }

  lemma {:induction false} InsertBehind(pre: seq<Rule>, rules: seq<Rule>, r: Rule)
    requires forall x | x in pre :: x.prio <= r.prio
    ensures Insert(pre + rules, r) == pre + Insert(rules, r)
  {
    if pre == [] {
      assert pre + rules == rules;
    } else {
      assert pre[0] in pre;
      assert (pre + rules)[1..] == pre[1..] + rules;
      InsertBehind(pre[1..], rules, r);
    }
  }

  lemma {:induction false} InsertBetween(pre: seq<Rule>, r: Rule, post: seq<Rule>)
    requires forall x | x in pre :: x.prio <= r.prio
    requires forall x | x in post :: x.prio > r.prio
    ensures Insert(pre + post, r) == pre + [r] + post
  {
    InsertBehind(pre, post, r);
    assert post != [] ==> post[0] in post;
  }

  function Without(rules: seq<Rule>, r: Rule): (s: seq<Rule>)
    ensures |s| <= |rules|
  {
    if rules == [] then []
    else if rules[0] == r then Without(rules[1..], r)
    else [rules[0]] + Without(rules[1..], r)
  }

  lemma WithoutAbsent(rules: seq<Rule>, r: Rule)
    requires r !in rules
    ensures Without(rules, r) == rules
  {
  }

  lemma {:induction false} WithoutMiddle(pre: seq<Rule>, r: Rule, post: seq<Rule>)
    requires r !in pre && r !in post
    ensures Without(pre + [r] + post, r) == pre + post
  {
    if pre == [] {
      assert (pre + [r] + post)[1..] == post;
      WithoutAbsent(post, r);
      assert pre + post == post;
    } else {
      assert (pre + [r] + post)[1..] == pre[1..] + [r] + post;
      WithoutMiddle(pre[1..], r, post);
    }
  }

  lemma {:induction false} WithoutKeepsOk(rules: seq<Rule>, r: Rule)
    requires RulesOk(rules)
    ensures RulesOk(Without(rules, r))
    ensures forall x | x in Without(rules, r) :: x in rules
  {
    if rules != [] {
      WithoutKeepsOk(rules[1..], r);
      var s := Without(rules[1..], r);
      assert ([rules[0]] + s)[1..] == s;
    }
  }

  // ---- links -------------------------------------------------------------------------------

  /** Deleting a link removes the routes through it. */
  function DropDevice(t: Table, dev: string): Table {
    map d | d in t && t[d] != dev :: t[d]
  }

  function RenameIn(t: Table, from: string, to: string): (r: Table)
    ensures r.Keys == t.Keys
  {
    map d | d in t :: if t[d] == from then to else t[d]
  }

  function DropDeviceFib(fib: Fib, dev: string): (r: Fib)
    ensures r.rules == fib.rules
    ensures forall t :: r.TableOf(t) == DropDevice(fib.TableOf(t), dev)
  {
    Fib(fib.rules, map t | t in fib.tables && DropDevice(fib.tables[t], dev) != map[] :: DropDevice(fib.tables[t], dev))
  }

  function RenameFib(fib: Fib, from: string, to: string): (r: Fib)
    ensures r.rules == fib.rules
    ensures forall t :: r.TableOf(t) == RenameIn(fib.TableOf(t), from, to)
  {
    assert forall t | t in fib.tables :: RenameIn(fib.tables[t], from, to).Keys == fib.tables[t].Keys;
    Fib(fib.rules, map t | t in fib.tables :: RenameIn(fib.tables[t], from, to))
  }

  function LinkRemoved(n: Net, name: string): Net {
    Net(n.links - {name}, DropDeviceFib(n.v4, name), DropDeviceFib(n.v6, name))
  }

  function LinkRenamed(n: Net, from: string, to: string): Net
    requires from in n.links
  {
    Net((n.links - {from})[to := n.links[from]], RenameFib(n.v4, from, to), RenameFib(n.v6, from, to))
  }

  /** Names of the fallback devices the kernel creates when a tunnel module is loaded. */
  function Fallback(f: Family): string {
    if f.V4? then "tunl0" else "ip6tnl0"
  }

  /** The names the program gives them. */
  function Retired(f: Family): string {
    if f.V4? then "egress_tunl" else "egress_ip6tnl"
  }

  /** Settings outside rules, routes and links. `ReturnRule` is the gateway's policy rule for its interface, with the
      table it looks into. */
  datatype Setup =
    | ModProbe(family: Family) | FouPort(family: Family) | RpFilter(scope: string) | Forwarding(family: Family)
    | Iptables(family: Family) | ChecksumFill(family: Family) | Masquerade(family: Family)
    | ReturnRule(family: Family, prio: int, table: int)

  /** A second listening socket on the port and a second copy of the rule are refused; the rest can be repeated. */
  predicate Once(s: Setup) {
    s.FouPort? || s.ReturnRule?
  }

  datatype Errno = Ok | Exists | NotFound | Failed

  class Host {
    var net: Net
    /** The one-time settings made so far: modules, ports, sysctls, packet filter entries. */
    var setup: set<Setup>
    ghost var faults: nat

    ghost predicate Valid()
      reads this
    {
      RulesOk(net.v4.rules) && RulesOk(net.v6.rules)
    }

    constructor (n: Net)
      requires RulesOk(n.v4.rules) && RulesOk(n.v6.rules)
      ensures net == n && setup == {} && faults == 0 && Valid()
    {
      net, setup := n, {};
      faults := 0;
    }

    /** Some kernel calls fail: nothing is known about when. */
    method Flaky() returns (broken: bool)
      modifies this`faults
      ensures faults == if broken then old(faults) + 1 else old(faults)
    {
      broken := *;
      if broken {
        faults := faults + 1;
      }
    }

    method Configure(s: Setup) returns (e: Errno)
      modifies this`setup, this`faults
      ensures e.Ok? || e.Exists? || e.Failed?
      ensures e.Ok? ==> setup == old(setup) + {s} && !(Once(s) && s in old(setup))
      ensures !e.Ok? ==> setup == old(setup)
      ensures e.Exists? ==> Once(s) && s in old(setup)
      ensures e.Failed? <==> faults != old(faults)
      ensures old(faults) <= faults
    {
      var broken := Flaky();
      if broken {
        return Failed;
      }
      if Once(s) && s in setup {
        return Exists;
      }
      setup := setup + {s};
      e := Ok;
    }

    method RuleList(f: Family) returns (e: Errno, rules: seq<Rule>)
      modifies this`faults
      ensures e.Ok? || e.Failed?
      ensures e.Ok? ==> rules == net.Of(f).rules && faults == old(faults)
      ensures e.Failed? ==> faults == old(faults) + 1
    {
      e, rules := Ok, net.Of(f).rules;
      var broken := Flaky();
      if broken {
        e := Failed;
      }
    }

    method RuleAdd(f: Family, r: Rule) returns (e: Errno)
      requires Valid()
      modifies this`net, this`faults
      ensures Valid()
      ensures e.Ok? || e.Exists? || e.Failed?
      ensures e.Ok? ==> r !in old(net).Of(f).rules
                        && net == old(net).With(f, old(net).Of(f).(rules := Insert(old(net).Of(f).rules, r)))
      ensures !e.Ok? ==> net == old(net)
      ensures e.Exists? ==> r in old(net).Of(f).rules
      ensures e.Failed? <==> faults != old(faults)
      ensures old(faults) <= faults
    {
      var broken := Flaky();
      if broken {
        return Failed;
      }
      var fib := net.Of(f);
      if r in fib.rules {
        return Exists;
      }
      InsertKeepsOk(fib.rules, r);
      net := net.With(f, fib.(rules := Insert(fib.rules, r)));
      e := Ok;
    }

    method RuleDel(f: Family, r: Rule) returns (e: Errno)
      requires Valid()
      modifies this`net, this`faults
      ensures Valid()
      ensures e.Ok? || e.NotFound? || e.Failed?
      ensures e.Ok? ==> net == old(net).With(f, old(net).Of(f).(rules := Without(old(net).Of(f).rules, r)))
      ensures !e.Ok? ==> net == old(net)
      ensures e.NotFound? ==> r !in old(net).Of(f).rules
      ensures e.Failed? <==> faults != old(faults)
      ensures old(faults) <= faults
    {
      var broken := Flaky();
      if broken {
        return Failed;
      }
      var fib := net.Of(f);
      if r !in fib.rules {
        return NotFound;
      }
      WithoutKeepsOk(fib.rules, r);
      net := net.With(f, fib.(rules := Without(fib.rules, r)));
      e := Ok;
    }

    /** Lists the destinations of one table, in no particular order. */
    method RouteList(f: Family, t: int) returns (e: Errno, dsts: seq<Bits>)
      modifies this`faults
      ensures e.Ok? || e.Failed?
      ensures e.Ok? ==> faults == old(faults) && Distinct(dsts)
                        && forall d :: d in dsts <==> d in net.Of(f).TableOf(t)
      ensures e.Failed? ==> faults == old(faults) + 1
    {
      dsts := [];
      var broken := Flaky();
      if broken {
        return Failed, dsts;
      }
      var left := net.Of(f).TableOf(t).Keys;
      while left != {}
        invariant left <= net.Of(f).TableOf(t).Keys
        invariant Distinct(dsts)
        invariant forall d :: d in dsts <==> d in net.Of(f).TableOf(t) && d !in left
        decreases left
      {
        var d :| d in left;
        dsts := dsts + [d];
        left := left - {d};
      }
      e := Ok;
    }

    method RouteAdd(f: Family, t: int, d: Bits, dev: string) returns (e: Errno)
      modifies this`net, this`faults
      ensures old(Valid()) ==> Valid()
      ensures e.Ok? || e.Exists? || e.Failed?
      ensures e.Ok? ==> d !in old(net).Of(f).TableOf(t)
                        && net == old(net).With(f, old(net).Of(f).WithTable(t, old(net).Of(f).TableOf(t)[d := dev]))
      ensures !e.Ok? ==> net == old(net)
      ensures e.Exists? ==> d in old(net).Of(f).TableOf(t)
      ensures e.Failed? <==> faults != old(faults)
      ensures old(faults) <= faults
    {
      var broken := Flaky();
      if broken {
        return Failed;
      }
      var fib := net.Of(f);
      if d in fib.TableOf(t) {
        return Exists;
      }
      net := net.With(f, fib.WithTable(t, fib.TableOf(t)[d := dev]));
      e := Ok;
    }

    method RouteDel(f: Family, t: int, d: Bits) returns (e: Errno)
      modifies this`net, this`faults
      ensures old(Valid()) ==> Valid()
      ensures e.Ok? || e.NotFound? || e.Failed?
      ensures e.Ok? ==> net == old(net).With(f, old(net).Of(f).WithTable(t, old(net).Of(f).TableOf(t) - {d}))
      ensures !e.Ok? ==> net == old(net)
      ensures e.NotFound? ==> d !in old(net).Of(f).TableOf(t)
      ensures e.Failed? <==> faults != old(faults)
      ensures old(faults) <= faults
    {
      var broken := Flaky();
      if broken {
        return Failed;
      }
      var fib := net.Of(f);
      if d !in fib.TableOf(t) {
        return NotFound;
      }
      net := net.With(f, fib.WithTable(t, fib.TableOf(t) - {d}));
      e := Ok;
    }

    method LinkByName(name: string) returns (e: Errno)
      modifies this`faults
      ensures e.Ok? || e.NotFound? || e.Failed?
      ensures e.Ok? ==> name in net.links
      ensures e.NotFound? ==> name !in net.links
      ensures e.Failed? <==> faults != old(faults)
      ensures old(faults) <= faults
    {
      var broken := Flaky();
      if broken {
        return Failed;
      }
      e := if name in net.links then Ok else NotFound;
    }

    /** Adds a link. Creating a tunnel may load its module, which may bring up the family's fallback device,
        unless the namespace has it already under one of its two names. */
    method LinkAdd(name: string, link: Link, f: Family) returns (e: Errno)
      modifies this`net, this`faults
      ensures old(Valid()) ==> Valid()
      ensures e.Ok? || e.Exists? || e.Failed?
      ensures e.Ok? ==> name !in old(net).links
                        && (net == old(net).(links := old(net).links[name := link])
                            || (!link.Dummy? && Fallback(f) !in old(net).links && Retired(f) !in old(net).links
                                && Fallback(f) != name
                                && net == old(net).(links := old(net).links[name := link][Fallback(f) := Other])))
      ensures !e.Ok? ==> net == old(net)
      ensures e.Exists? ==> name in old(net).links
      ensures e.Failed? <==> faults != old(faults)
      ensures old(faults) <= faults
    {
      var broken := Flaky();
      if broken {
        return Failed;
      }
      if name in net.links {
        return Exists;
      }
      var loaded: bool := *;
      if loaded && !link.Dummy? && Fallback(f) !in net.links && Retired(f) !in net.links && Fallback(f) != name {
        net := net.(links := net.links[name := link][Fallback(f) := Other]);
      } else {
        net := net.(links := net.links[name := link]);
      }
      e := Ok;
    }

    method LinkDel(name: string) returns (e: Errno)
      modifies this`net, this`faults
      ensures old(Valid()) ==> Valid()
      ensures e.Ok? || e.NotFound? || e.Failed?
      ensures e.Ok? ==> net == LinkRemoved(old(net), name)
      ensures !e.Ok? ==> net == old(net)
      ensures e.NotFound? ==> name !in old(net).links
      ensures e.Failed? <==> faults != old(faults)
      ensures old(faults) <= faults
    {
      var broken := Flaky();
      if broken {
        return Failed;
      }
      if name !in net.links {
        return NotFound;
      }
      net := LinkRemoved(net, name);
      e := Ok;
    }

    method LinkSetName(from: string, to: string) returns (e: Errno)
      requires from != to
      modifies this`net, this`faults
      ensures old(Valid()) ==> Valid()
      ensures e.Ok? ==> from in old(net).links && to !in old(net).links && net == LinkRenamed(old(net), from, to)
      ensures !e.Ok? ==> net == old(net)
      ensures e.Exists? ==> to in old(net).links
      ensures e.NotFound? ==> from !in old(net).links
      ensures e.Failed? <==> faults != old(faults)
      ensures old(faults) <= faults
    {
      var broken := Flaky();
      if broken {
        return Failed;
      }
      if from !in net.links {
        return NotFound;
      }
      if to in net.links {
        return Exists;
      }
      net := LinkRenamed(net, from, to);
      e := Ok;
    }

    method LinkSetUp(name: string) returns (e: Errno)
      modifies this`faults
      ensures e.Ok? || e.Failed?
      ensures e.Failed? <==> faults != old(faults)
      ensures old(faults) <= faults
    {
      var broken := Flaky();
      e := if broken then Failed else Ok;
    }
  }
}
