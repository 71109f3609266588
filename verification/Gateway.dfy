/** The gateway side of the kernel: tunnels to client pods and the return routes through them. */
module Gateways {
  import opened Cidr
  import opened Kernel
  import opened LinkNames
  import opened FouTunnels
  import opened Bootstrap

  /** A route to a single address goes through the live tunnel to that address. */
  ghost predicate OwnRoute(h: Hash, n: Net, used: set<IP>, f: Family, d: Bits, dev: string) {
    |d| == Width(f) && IPAddr(f, d) in used && dev == FouName(h, IPAddr(f, d)) && dev in n.links
  }

  /** Every tunnel link leads to the address it is named after, and the return table holds nothing but
      routes to single addresses through their own tunnels. `used` are the addresses of the run. */
  ghost predicate WellFormed(h: Hash, n: Net, used: set<IP>) {
    && NoCollision(h, used)
    && TrueNames(h, n, used)
    && (forall d | d in n.v4.TableOf(RETURN_TABLE) :: OwnRoute(h, n, used, V4, d, n.v4.TableOf(RETURN_TABLE)[d]))
    && (forall d | d in n.v6.TableOf(RETURN_TABLE) :: OwnRoute(h, n, used, V6, d, n.v6.TableOf(RETURN_TABLE)[d]))
  }

  /** The addresses with a live tunnel. */
  ghost function Tunnels(h: Hash, n: Net, used: set<IP>): set<IP> {
    set a | a in used && FouName(h, a) in n.links
  }

  /** The addresses with a return route; a table has at most one route per destination. */
  ghost function Routed(n: Net, used: set<IP>): set<IP> {
    set a | a in used && a.bits in n.Of(a.family).TableOf(RETURN_TABLE)
  }

  lemma {:induction false} NamesDiffer(h: Hash, used: set<IP>, a: IP, b: IP)
    requires NoCollision(h, used) && a in used && b in used && a != b
    ensures FouName(h, a) != FouName(h, b)
  {
    FouNameInjective(h, a, b);
  }

  /** The destinations of the return routes through one device. */
  ghost function RoutesThrough(n: Net, f: Family, dev: string): set<Bits> {
    set d | d in n.Of(f).TableOf(RETURN_TABLE) && n.Of(f).TableOf(RETURN_TABLE)[d] == dev
  }

  lemma {:induction false} OnlyOwnRoute(h: Hash, n: Net, used: set<IP>, a: IP, f: Family)
    requires WellFormed(h, n, used) && a in used
    ensures RoutesThrough(n, f, FouName(h, a)) == if a in Routed(n, used) && f == a.family then {a.bits} else {}
  {
    var t := n.Of(f).TableOf(RETURN_TABLE);
    forall d | d in t
      ensures t[d] == FouName(h, a) <==> a == IPAddr(f, d)
    {
      assert OwnRoute(h, n, used, f, d, t[d]);
      if IPAddr(f, d) != a {
        NamesDiffer(h, used, IPAddr(f, d), a);
      }
    }
    assert a == IPAddr(a.family, a.bits);
  }

  /** The two sets in terms of the kernel: a listed tunnel leads to its address; the only return route that may
      go through it is that of the address itself, and it does exactly for a listed route. */
  lemma {:induction false} MeaningOfSets(h: Hash, n: Net, used: set<IP>, a: IP)
    requires WellFormed(h, n, used) && a in used
    ensures a in Tunnels(h, n, used) ==> n.links[FouName(h, a)] == Tunnel(a)
    ensures a in Routed(n, used) ==> a in Tunnels(h, n, used)
    ensures forall f :: RoutesThrough(n, f, FouName(h, a)) == if a in Routed(n, used) && f == a.family then {a.bits} else {}
  {
    OnlyOwnRoute(h, n, used, a, V4);
    OnlyOwnRoute(h, n, used, a, V6);
    if a in Routed(n, used) {
      assert OwnRoute(h, n, used, a.family, a.bits, n.Of(a.family).TableOf(RETURN_TABLE)[a.bits]);
    }
  }

  lemma {:induction false} ReturnTableKept(h: Hash, n: Net, used: set<IP>)
    requires WellFormed(h, n, used)
    ensures NoFixedDevice(n.v4.TableOf(RETURN_TABLE)) && NoFixedDevice(n.v6.TableOf(RETURN_TABLE))
  {
    forall d | d in n.v4.TableOf(RETURN_TABLE)
      ensures n.v4.TableOf(RETURN_TABLE)[d] !in FIXED_NAMES
    {
      FouNameNotFixed(h, IPAddr(V4, d));
    }
    forall d | d in n.v6.TableOf(RETURN_TABLE)
      ensures n.v6.TableOf(RETURN_TABLE)[d] !in FIXED_NAMES
    {
      FouNameNotFixed(h, IPAddr(V6, d));
    }
  }

  lemma {:induction false} TunnelAdded(h: Hash, n: Net, n': Net, used: set<IP>, a: IP)
    requires WellFormed(h, n, used) && a in used && FouName(h, a) !in n.links
    requires DevicesOnly(WithTunnel(h, n, a), n')
    ensures WellFormed(h, n', used)
    ensures Tunnels(h, n', used) == Tunnels(h, n, used) + {a}
    ensures Routed(n', used) == Routed(n, used)
  {
    ReturnTableKept(h, n, used);
    var m := WithTunnel(h, n, a);
    assert n'.v4.TableOf(RETURN_TABLE) == n.v4.TableOf(RETURN_TABLE);
    assert n'.v6.TableOf(RETURN_TABLE) == n.v6.TableOf(RETURN_TABLE);
    forall b | b in used
      ensures FouName(h, b) in n'.links <==> b == a || FouName(h, b) in n.links
      ensures FouName(h, b) in n'.links ==> n'.links[FouName(h, b)] == Tunnel(b)
    {
      FouNameNotFixed(h, b);
      if b != a {
        NamesDiffer(h, used, a, b);
      }
    }
  }

  lemma {:induction false} TunnelRemovedTable(h: Hash, n: Net, used: set<IP>, f: Family, a: IP)
    requires NoCollision(h, used) && a in used
    requires forall d | d in n.Of(f).TableOf(RETURN_TABLE) :: OwnRoute(h, n, used, f, d, n.Of(f).TableOf(RETURN_TABLE)[d])
    ensures var n' := LinkRemoved(n, FouName(h, a));
            var t' := n'.Of(f).TableOf(RETURN_TABLE);
            && (forall d | d in t' :: OwnRoute(h, n', used, f, d, t'[d]))
            && (forall d :: d in t' <==> d in n.Of(f).TableOf(RETURN_TABLE) && !(a.family == f && a.bits == d))
  {
    var t := n.Of(f).TableOf(RETURN_TABLE);
    forall d | d in t
      ensures t[d] == FouName(h, a) <==> a.family == f && a.bits == d
    {
      if IPAddr(f, d) != a {
        NamesDiffer(h, used, IPAddr(f, d), a);
      }
    }
  }

  lemma {:induction false} TunnelRemoved(h: Hash, n: Net, used: set<IP>, a: IP)
    requires WellFormed(h, n, used) && a in used
    ensures WellFormed(h, PeerRemoved(h, n, a), used)
    ensures Tunnels(h, PeerRemoved(h, n, a), used) == Tunnels(h, n, used) - {a}
    ensures Routed(PeerRemoved(h, n, a), used) == Routed(n, used) - {a}
  {
    if FouName(h, a) in n.links {
      var n' := LinkRemoved(n, FouName(h, a));
      TunnelRemovedTable(h, n, used, V4, a);
      TunnelRemovedTable(h, n, used, V6, a);
      forall b | b in used && b != a
        ensures FouName(h, b) in n'.links <==> FouName(h, b) in n.links
        ensures b in Routed(n', used) <==> b in Routed(n, used)
      {
        NamesDiffer(h, used, a, b);
      }
    } else {
      MeaningOfSets(h, n, used, a);
    }
  }

  function WithReturnRoute(h: Hash, n: Net, a: IP): Net {
    var fib := n.Of(a.family);
    n.With(a.family, fib.WithTable(RETURN_TABLE, fib.TableOf(RETURN_TABLE)[a.bits := FouName(h, a)]))
  }

  lemma RouteAddedTables(h: Hash, n: Net, a: IP, f: Family)
    ensures WithReturnRoute(h, n, a).Of(f).TableOf(RETURN_TABLE)
         == if f == a.family then n.Of(f).TableOf(RETURN_TABLE)[a.bits := FouName(h, a)] else n.Of(f).TableOf(RETURN_TABLE)
  {
  }

  lemma {:induction false} RouteAddedRouted(h: Hash, n: Net, used: set<IP>, a: IP)
    requires a in used
    ensures Routed(WithReturnRoute(h, n, a), used) == Routed(n, used) + {a}
  {
  }

  lemma {:induction false} RouteAdded(h: Hash, n: Net, used: set<IP>, a: IP)
    requires WellFormed(h, n, used) && a in Tunnels(h, n, used)
    ensures WellFormed(h, WithReturnRoute(h, n, a), used)
    ensures Tunnels(h, WithReturnRoute(h, n, a), used) == Tunnels(h, n, used)
    ensures Routed(WithReturnRoute(h, n, a), used) == Routed(n, used) + {a}
  {
    var n' := WithReturnRoute(h, n, a);
    RouteAddedTables(h, n, a, V4);
    RouteAddedTables(h, n, a, V6);
    RouteAddedRouted(h, n, used, a);
    assert n'.links == n.links;
    assert OwnRoute(h, n', used, a.family, a.bits, FouName(h, a)) by {
      assert a == IPAddr(a.family, a.bits);
    }
  }

  /** Some route's base address is the client's; a default route does not count. */
  predicate SameBase(t: Table, a: IP)
    requires forall d | d in t :: |d| <= Width(a.family)
  {
    exists d | d in t :: d != [] && Base(d, Width(a.family)) == a.bits
  }

  /** Of the prefixes of an address only the one that the address extends by zero bits has its base address; the
      prefixes of other addresses never do. */
  lemma {:induction false} SameBaseShape(t: Table, a: IP)
    requires forall d | d in t :: |d| <= Width(a.family)
    ensures SameBase(t, a)
       <==> exists d | d in t :: d != [] && d <= a.bits && forall i | |d| <= i < |a.bits| :: !a.bits[i]
  {
    forall d | d in t
      ensures Base(d, Width(a.family)) == a.bits <==> d <= a.bits && forall i | |d| <= i < |a.bits| :: !a.bits[i]
    {
      var b := Base(d, Width(a.family));
      assert forall i | |d| <= i < |b| :: !b[i];
    }
  }

  /** On a well-formed return table, comparing base addresses is comparing destinations. */
  lemma {:induction false} SameBaseIsRouted(h: Hash, n: Net, used: set<IP>, a: IP)
    requires WellFormed(h, n, used) && a in used
    ensures forall d | d in n.Of(a.family).TableOf(RETURN_TABLE) :: |d| <= Width(a.family)
    ensures SameBase(n.Of(a.family).TableOf(RETURN_TABLE), a) <==> a in Routed(n, used)
  {
    var t := n.Of(a.family).TableOf(RETURN_TABLE);
    forall d | d in t
      ensures |d| == Width(a.family) && Base(d, Width(a.family)) == d
    {
      assert OwnRoute(h, n, used, a.family, d, t[d]);
    }
  }

  /** What AddClient does to a well-formed gateway when it succeeds. */
  lemma {:induction false} ClientAdded(h: Hash, n: Net, n': Net, used: set<IP>, a: IP)
    requires WellFormed(h, n, used) && a in Tunnels(h, n, used)
    requires n' == if a in Routed(n, used) then n else WithReturnRoute(h, n, a)
    ensures WellFormed(h, n', used)
    ensures Tunnels(h, n', used) == Tunnels(h, n, used)
    ensures Routed(n', used) == Routed(n, used) + {a}
  {
    if a in Routed(n, used) {
      assert Routed(n, used) + {a} == Routed(n, used);
    } else {
      RouteAdded(h, n, used, a);
    }
  }

  datatype ClientErr = ClientOk | ClientMismatch | ClientFailed

  class EgressNat {
    const ipv4: bool
    const ipv6: bool

    constructor (ipv4: bool, ipv6: bool)
      ensures this.ipv4 == ipv4 && this.ipv6 == ipv6
    {
      this.ipv4, this.ipv6 := ipv4, ipv6;
    }

    predicate Supports(f: Family) {
      if f.V4? then ipv4 else ipv6
    }

    /** Sets up masquerading and the policy rule for the gateway's interface, once. */
    method Init(host: Host) returns (err: bool)
      requires host.Valid()
      modifies host
      ensures host.Valid() && old(host.faults) <= host.faults
      ensures Attempt(EgressSteps(ipv4, ipv6), Boot(old(host.setup), EGRESS_DUMMY in old(host.net).links),
                      Boot(host.setup, EGRESS_DUMMY in host.net.links), err, host.faults == old(host.faults))
      ensures OnlyMarked(old(host.net), host.net, EGRESS_DUMMY)
    {
      err := InitOnce(host, EgressSteps(ipv4, ipv6), EGRESS_DUMMY);
    }

    /** Ensures a return route to a client. A listed route counts as present when its base address is
        the client's, whatever its length. */
    method AddClient(host: Host, a: IP, dev: string) returns (e: ClientErr)
      requires host.Valid()
      requires forall d | d in host.net.Of(a.family).TableOf(RETURN_TABLE) :: |d| <= Width(a.family)
      modifies host`net, host`faults
      ensures host.Valid() && old(host.faults) <= host.faults
      ensures e.ClientMismatch? <==> !(if a.family.V4? then ipv4 else ipv6)
      ensures !e.ClientOk? ==> host.net == old(host.net)
      ensures e.ClientFailed? ==> host.faults != old(host.faults)
      ensures e.ClientOk? && SameBase(old(host.net).Of(a.family).TableOf(RETURN_TABLE), a) ==> host.net == old(host.net)
      ensures e.ClientOk? && !SameBase(old(host.net).Of(a.family).TableOf(RETURN_TABLE), a) ==>
                var fib, n := old(host.net).Of(a.family), old(host.net);
                host.net == n.With(a.family, fib.WithTable(RETURN_TABLE, fib.TableOf(RETURN_TABLE)[a.bits := dev]))
    {
      if !Supports(a.family) {
        return ClientMismatch;
      }
      assert Base(a.bits, Width(a.family)) == a.bits;
      var r, ds := host.RouteList(a.family, RETURN_TABLE);
      if !r.Ok? {
        return ClientFailed;
      }
      for i := 0 to |ds|
        invariant host.net == old(host.net) && host.faults == old(host.faults) && host.Valid()
        invariant forall j | 0 <= j < i :: ds[j] == [] || Base(ds[j], Width(a.family)) != a.bits
      {
        if ds[i] == [] {
          continue;
        }
        assert ds[i] in host.net.Of(a.family).TableOf(RETURN_TABLE);
        if Base(ds[i], Width(a.family)) == a.bits {
          return ClientOk;
        }
      }
      r := host.RouteAdd(a.family, RETURN_TABLE, a.bits, dev);
      e := if r.Ok? then ClientOk else ClientFailed;
    }
  }
}
