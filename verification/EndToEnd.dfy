/** What a pod's set-up means as a whole: where packets go, and what the order of annotations can and cannot
    change. */
module EndToEnd {
  import opened Options
  import opened Cidr
  import opened Kernel
  import opened Routing
  import opened LinkNames
  import opened RuleBands
  import opened NatClients
  import opened Annotations
  import opened Bootstrap
  import opened FouTunnels
  import opened Agents

  // ---- every destination of every usable gateway is routed ---------------------------------------

  lemma {:induction false} AllUsable(cfg: Config, dev: string, nets: seq<Subnet>)
    requires forall n | n in nets :: cfg.Enabled(n.family)
    ensures |Usable(cfg, dev, nets)| == |nets|
    ensures forall i | 0 <= i < |nets| :: Usable(cfg, dev, nets)[i] == Entry(nets[i], dev)
  {
    if nets != [] {
      var k := |nets| - 1;
      AllUsable(cfg, dev, nets[..k]);
    }
  }

  /** For the lists the agent builds, the client never skips a destination for its address family: every
      gateway that is not skipped itself gets one entry for each of its destinations, in order. */
  lemma {:induction false} NothingSkipped(cfg: Config, h: Hash, l: seq<GWNets>, g: GWNets)
    requires SameFamily(l) && g in l && cfg.Enabled(g.gateway.family)
    ensures |EntryFun(cfg, h)(g)| == |g.networks|
    ensures forall i | 0 <= i < |g.networks| :: EntryFun(cfg, h)(g)[i] == Entry(g.networks[i], FouName(h, g.gateway))
  {
    AllUsable(cfg, FouName(h, g.gateway), g.networks);
  }

  lemma {:induction false} DestinationHasEntry(cfg: Config, h: Hash, l: seq<GWNets>, g: GWNets, d: Subnet)
    requires SameFamily(l) && g in l && d in g.networks && cfg.Enabled(d.family)
    ensures Entry(d, FouName(h, g.gateway)) in AllEntries(cfg, h, l)
  {
    NothingSkipped(cfg, h, l, g);
    var j :| 0 <= j < |g.networks| && g.networks[j] == d;
    assert EntryFun(cfg, h)(g)[j] == Entry(d, FouName(h, g.gateway));
    FlatMapMembers(EntryFun(cfg, h), l, Entry(d, FouName(h, g.gateway)));
  }

  // ---- where a packet goes -----------------------------------------------------------------------

  /** `d` of gateway `g` is the longest destination, private networks included, that contains the address. */
  ghost predicate Owner(priv: seq<Bits>, l: seq<GWNets>, g: GWNets, d: Subnet, a: IP) {
    && g in l && d in g.networks && d.family == a.family && d.bits <= a.bits
    && (forall p | p in priv && p <= a.bits :: |p| <= |d.bits|)
    && (forall g', d' | g' in l && d' in g'.networks && d'.family == a.family && d'.bits <= a.bits :: |d'.bits| <= |d.bits|)
  }

  lemma {:induction false} RoutedDestinations(cfg: Config, h: Hash, n: Net, l: seq<GWNets>, f: Family, b: Bits)
    requires Ready(cfg, h, n, l) && SameFamily(l) && cfg.Enabled(f) && |b| <= Width(f)
    ensures b in Registered(n.Of(f)) <==> exists g | g in l :: Net4or6(f, b) in g.networks
    ensures b in Registered(n.Of(f)) ==>
              exists g | g in l && cfg.Enabled(g.gateway.family) ::
                Net4or6(f, b) in g.networks && Registered(n.Of(f))[b] == FouName(h, g.gateway)
  {
    var es := AllEntries(cfg, h, l);
    if b in Registered(n.Of(f)) {
      RoutesOfDev(es, f, b);
      var i :| 0 <= i < |es| && es[i].net == Net4or6(f, b) && es[i].dev == Registered(n.Of(f))[b];
      EntryDevs(cfg, h, l, i);
    }
    if g :| g in l && Net4or6(f, b) in g.networks {
      DestinationHasEntry(cfg, h, l, g, Net4or6(f, b));
      var i :| 0 <= i < |es| && es[i] == Entry(Net4or6(f, b), FouName(h, g.gateway));
    }
  }

  /** `k` is the longest key of the flat table that contains the address. */
  ghost predicate Decides(priv: seq<Bits>, subs: Table, a: Bits, k: Bits) {
    && k in subs && k <= a
    && (forall q | q in subs && q <= a :: |q| <= |k|)
    && (forall p | p in priv && p <= a :: |p| <= |k|)
  }

  lemma {:induction false} FlatVia(priv: seq<Bits>, subs: Table, a: Bits) returns (k: Bits)
    requires Flat(priv, subs, a).Via?
    ensures Decides(priv, subs, a, k) && Flat(priv, subs, a) == Via(subs[k])
  {
    var flat := FlatTable(priv, subs);
    k := Longest(flat.Keys, a).value;
    assert k in subs;
    assert forall q | q in subs :: q in flat;
    assert forall p | p in priv :: p in flat;
  }

  lemma {:induction false} DecidesOwner(cfg: Config, h: Hash, n: Net, l: seq<GWNets>, a: IP, k: Bits, g: GWNets)
    requires Ready(cfg, h, n, l) && SameFamily(l) && cfg.Enabled(a.family)
    requires Decides(cfg.Priv(a.family), Registered(n.Of(a.family)), a.bits, k)
    requires g in l && Net4or6(a.family, k) in g.networks
    ensures Owner(cfg.Priv(a.family), l, g, Net4or6(a.family, k), a)
  {
    forall g', d' | g' in l && d' in g'.networks && d'.family == a.family && d'.bits <= a.bits
      ensures |d'.bits| <= |k|
    {
      RoutedDestinations(cfg, h, n, l, a.family, d'.bits);
      assert d' == Net4or6(a.family, d'.bits);
    }
  }

  /** A packet that the flat table sends into a tunnel goes to the gateway of the egress that owns the
      longest matching destination, over a link that leads to that gateway, in the packet's own family. */
  lemma {:induction false} TunnelLeadsToOwner(cfg: Config, h: Hash, n: Net, l: seq<GWNets>, a: IP)
    returns (g: GWNets, d: Subnet)
    requires Ready(cfg, h, n, l) && Live(cfg, h, n, l) && SameFamily(l) && cfg.Enabled(a.family)
    requires Flat(cfg.Priv(a.family), Registered(n.Of(a.family)), a.bits).Via?
    ensures Owner(cfg.Priv(a.family), l, g, d, a) && g.gateway.family == a.family
    ensures Flat(cfg.Priv(a.family), Registered(n.Of(a.family)), a.bits) == Via(FouName(h, g.gateway))
    ensures FouName(h, g.gateway) in n.links && n.links[FouName(h, g.gateway)] == Tunnel(g.gateway)
  {
    var f, subs := a.family, Registered(n.Of(a.family));
    var k := FlatVia(cfg.Priv(f), subs, a.bits);
    RoutedDestinations(cfg, h, n, l, f, k);
    g :| g in l && cfg.Enabled(g.gateway.family) && Net4or6(f, k) in g.networks && subs[k] == FouName(h, g.gateway);
    d := Net4or6(f, k);
    DecidesOwner(cfg, h, n, l, a, k, g);
  }

  lemma {:induction false} OwnerIsLongest(cfg: Config, h: Hash, n: Net, l: seq<GWNets>, g: GWNets, d: Subnet, a: IP, q: Bits)
    requires Ready(cfg, h, n, l) && SameFamily(l) && cfg.Enabled(a.family)
    requires Owner(cfg.Priv(a.family), l, g, d, a)
    requires q in Registered(n.Of(a.family)) && q <= a.bits
    ensures |q| <= |d.bits|
  {
    RoutedDestinations(cfg, h, n, l, a.family, q);
  }

  /** Conversely, the owner of an address gets its packets. */
  lemma {:induction false} OwnerIsReached(cfg: Config, h: Hash, n: Net, l: seq<GWNets>, g: GWNets, d: Subnet, a: IP)
    requires Ready(cfg, h, n, l) && SameFamily(l) && cfg.Enabled(a.family)
    requires Owner(cfg.Priv(a.family), l, g, d, a)
    ensures Flat(cfg.Priv(a.family), Registered(n.Of(a.family)), a.bits) == Via(FouName(h, g.gateway))
  {
    var subs := Registered(n.Of(a.family));
    DestinationHasEntry(cfg, h, l, g, d);
    RouteOfEntry(AllEntries(cfg, h, l), Entry(d, FouName(h, g.gateway)));
    forall q | q in subs && q <= a.bits
      ensures |q| <= |d.bits|
    {
      OwnerIsLongest(cfg, h, n, l, g, d, a, q);
    }
    FlatDecidedBy(cfg.Priv(a.family), subs, a.bits, d.bits);
  }

  lemma ReadyIsInstalled(cfg: Config, h: Hash, n: Net, l: seq<GWNets>, f: Family)
    requires Ready(cfg, h, n, l) && cfg.Enabled(f)
    ensures Installed(n.Of(f), LinkLocal(f), cfg.Priv(f), Width(f))
  {
  }

  /** After a successful set-up with the built-in private networks, the kernel's walk over rules and
      tables is the flat table of all destinations and private networks, unless a destination is one of
      the five exceptions. */
  lemma {:induction false} PodRoutesFlat(ipv4: bool, ipv6: bool, h: Hash, n: Net, l: seq<GWNets>, a: IP)
    requires Ready(AgentConfig(ipv4, ipv6), h, n, l) && AgentConfig(ipv4, ipv6).Enabled(a.family)
    requires forall b | b in Registered(n.Of(a.family)) :: b !in Exceptions(a.family)
    requires !(LinkLocal(a.family) <= a.bits)
    ensures var fib := n.Of(a.family);
            var hop := Flat(BuiltinPrivate(a.family), Registered(fib), a.bits);
            Walk(fib.rules, fib, a.bits) == OrElse(Walk(Below(OutOfBand(fib.rules)), fib, a.bits),
                                                   OrElse(hop, Walk(Above(OutOfBand(fib.rules)), fib, a.bits)))
  {
    var cfg, f := AgentConfig(ipv4, ipv6), a.family;
    ReadyIsInstalled(cfg, h, n, l, f);
    forall b | b in Registered(n.Of(f))
      ensures Safe(BuiltinPrivate(f), b, Width(f))
    {
      BuiltinExceptions(f, b);
    }
    InstalledRoutesFlat(n.Of(f), LinkLocal(f), BuiltinPrivate(f), a.bits);
  }

  /** The rules outside the client's band send no such packet to a device. */
  ghost predicate OthersQuiet(fib: Fib, a: Bits) {
    Walk(Below(OutOfBand(fib.rules)), fib, a).NoMatch? && !Walk(Above(OutOfBand(fib.rules)), fib, a).Via?
  }

  lemma {:induction false} FlatIffOwned(cfg: Config, h: Hash, n: Net, l: seq<GWNets>, a: IP)
    requires Ready(cfg, h, n, l) && Live(cfg, h, n, l) && SameFamily(l) && cfg.Enabled(a.family)
    ensures Flat(cfg.Priv(a.family), Registered(n.Of(a.family)), a.bits).Via?
       <==> exists g, d :: Owner(cfg.Priv(a.family), l, g, d, a)
  {
    if Flat(cfg.Priv(a.family), Registered(n.Of(a.family)), a.bits).Via? {
      var g, d := TunnelLeadsToOwner(cfg, h, n, l, a);
    }
    if g, d :| Owner(cfg.Priv(a.family), l, g, d, a) {
      OwnerIsReached(cfg, h, n, l, g, d, a);
    }
  }

  lemma {:induction false} QuietWalk(ipv4: bool, ipv6: bool, h: Hash, n: Net, l: seq<GWNets>, a: IP)
    requires Ready(AgentConfig(ipv4, ipv6), h, n, l) && AgentConfig(ipv4, ipv6).Enabled(a.family)
    requires forall b | b in Registered(n.Of(a.family)) :: b !in Exceptions(a.family)
    requires !(LinkLocal(a.family) <= a.bits) && OthersQuiet(n.Of(a.family), a.bits)
    ensures var fib := n.Of(a.family);
            var hop := Flat(BuiltinPrivate(a.family), Registered(fib), a.bits);
            && (Walk(fib.rules, fib, a.bits).Via? <==> hop.Via?)
            && (hop.Via? ==> Walk(fib.rules, fib, a.bits) == hop)
  {
    var fib := n.Of(a.family);
    PodRoutesFlat(ipv4, ipv6, h, n, l, a);
    QuietHops(Walk(Below(OutOfBand(fib.rules)), fib, a.bits),
              Flat(BuiltinPrivate(a.family), Registered(fib), a.bits),
              Walk(Above(OutOfBand(fib.rules)), fib, a.bits));
  }

  lemma {:induction false} QuietHops(below: Hop, hop: Hop, above: Hop)
    requires below.NoMatch? && !above.Via?
    ensures OrElse(below, OrElse(hop, above)).Via? <==> hop.Via?
    ensures hop.Via? ==> OrElse(below, OrElse(hop, above)) == hop
  {
  }

  /** Before set-up: the rules outside the client's band send no such packet to a device and do not look into the
      client's two tables. */
  ghost predicate QuietBefore(fib: Fib, a: Bits) {
    && OthersQuiet(fib, a)
    && forall r | r in OutOfBand(fib.rules) && r.dst <= a && r.table != MAIN_TABLE ::
         r.table != NARROW_TABLE && r.table != WIDE_TABLE
  }

  /** The rule finds no more routes in the second state than in the first. */
  predicate Shrinks(r: Rule, fib: Fib, fib': Fib, a: Bits) {
    r.dst <= a && r.table != MAIN_TABLE ==> fib'.TableOf(r.table).Keys <= fib.TableOf(r.table).Keys
  }

  lemma {:induction false} VisitShrinks(r: Rule, fib: Fib, fib': Fib, a: Bits)
    requires Shrinks(r, fib, fib', a) && !Visit(r, fib, a).Via?
    ensures Visit(r, fib', a) == Visit(r, fib, a)
  {
    if r.dst <= a && r.table != MAIN_TABLE {
      assert forall q | q in fib.TableOf(r.table) :: !(q <= a);
    }
  }

  /** A walk that reaches no device reaches none when routes disappear. */
  lemma {:induction false} WalkShrinks(rules: seq<Rule>, fib: Fib, fib': Fib, a: Bits)
    requires (forall r | r in rules :: Shrinks(r, fib, fib', a)) && !Walk(rules, fib, a).Via?
    ensures Walk(rules, fib', a) == Walk(rules, fib, a)
  {
    if rules != [] {
      assert rules[0] in rules;
      VisitShrinks(rules[0], fib, fib', a);
      if Visit(rules[0], fib, a).NoMatch? {
        WalkShrinks(rules[1..], fib, fib', a);
      }
    }
  }

  lemma {:induction false} QuietStays(fib: Fib, fib': Fib, a: Bits)
    requires KeptFib(true, fib, fib') && QuietBefore(fib, a)
    ensures OthersQuiet(fib', a)
  {
    var kept := OutOfBand(fib.rules);
    forall r | r in kept
      ensures Shrinks(r, fib, fib', a)
    {
      if r.dst <= a && r.table != MAIN_TABLE {
        assert FixedOnly(fib.TableOf(r.table), fib'.TableOf(r.table));
      }
    }
    assert kept == Below(kept) + Above(kept);
    WalkShrinks(Below(kept), fib, fib', a);
    WalkShrinks(Above(kept), fib, fib', a);
  }

  /** Packets to the address reach a device exactly when some gateway owns it, and the device is then the link that
      leads to that gateway. */
  ghost predicate OwnersReached(h: Hash, n: Net, l: seq<GWNets>, a: IP) {
    var fib, priv := n.Of(a.family), BuiltinPrivate(a.family);
    && (Walk(fib.rules, fib, a.bits).Via? <==> exists g, d :: Owner(priv, l, g, d, a))
    && (forall g, d | Owner(priv, l, g, d, a) ::
          && g.gateway.family == a.family && Walk(fib.rules, fib, a.bits) == Via(FouName(h, g.gateway))
          && FouName(h, g.gateway) in n.links && n.links[FouName(h, g.gateway)] == Tunnel(g.gateway))
  }

  /** The kernel's walk after set-up, from conditions on the namespace before it. */
  lemma {:induction false} WalkLeadsToOwner(ipv4: bool, ipv6: bool, h: Hash, n0: Net, n: Net, l: seq<GWNets>, a: IP)
    requires Ready(AgentConfig(ipv4, ipv6), h, n, l) && Live(AgentConfig(ipv4, ipv6), h, n, l)
    requires Kept(AgentConfig(ipv4, ipv6), n0, n) && QuietBefore(n0.Of(a.family), a.bits)
    requires SameFamily(l) && AgentConfig(ipv4, ipv6).Enabled(a.family)
    requires forall b | b in Registered(n.Of(a.family)) :: b !in Exceptions(a.family)
    requires !(LinkLocal(a.family) <= a.bits)
    ensures OwnersReached(h, n, l, a)
  {
    var cfg, priv := AgentConfig(ipv4, ipv6), BuiltinPrivate(a.family);
    QuietStays(n0.Of(a.family), n.Of(a.family), a.bits);
    QuietWalk(ipv4, ipv6, h, n, l, a);
    FlatIffOwned(cfg, h, n, l, a);
    forall g, d | Owner(priv, l, g, d, a)
      ensures Flat(priv, Registered(n.Of(a.family)), a.bits) == Via(FouName(h, g.gateway))
    {
      OwnerIsReached(cfg, h, n, l, g, d, a);
    }
  }

  lemma {:induction false} NoExceptionRegistered(cfg: Config, h: Hash, n: Net, l: seq<GWNets>, f: Family, b: Bits)
    requires Ready(cfg, h, n, l) && SameFamily(l) && cfg.Enabled(f) && b in Registered(n.Of(f))
    requires forall g, d | g in l && d in g.networks :: d.bits !in Exceptions(d.family)
    ensures b !in Exceptions(f)
  {
    assert Classified(n.Of(f), cfg.Priv(f), Width(f));
    RoutedDestinations(cfg, h, n, l, f, b);
  }

  // ---- from the cluster to the wire ----------------------------------------------------------------

  /** The pod asks for egress `o`, and `d` is a destination of it that contains the address and has the family of its
      service. */
  ghost predicate Claims(pod: Pod, c: Cluster, o: ObjectKey, d: Subnet, a: IP) {
    && Mentions(pod, o) > 0 && o in c.services && c.services[o].Some? && o in c.egresses
    && Some(d) in c.egresses[o].destinations && d.bits <= a.bits
    && d.family == a.family && c.services[o].value.family == a.family
  }

  /** No private network and no other such destination is longer. */
  ghost predicate ClusterOwner(pod: Pod, c: Cluster, o: ObjectKey, d: Subnet, a: IP) {
    && Claims(pod, c, o, d, a)
    && (forall p | p in BuiltinPrivate(a.family) && p <= a.bits :: |p| <= |d.bits|)
    && (forall o', d' | Claims(pod, c, o', d', a) :: |d'.bits| <= |d.bits|)
  }

  /** The addresses of the services the pod asks for. */
  ghost function ServiceAddrs(pod: Pod, c: Cluster): set<IP> {
    set o | o in c.services && c.services[o].Some? && Mentions(pod, o) > 0 :: c.services[o].value
  }

  /** A destination of a listed gateway is a claim of the egress it serves. */
  lemma {:induction false} ListedIsClaimed(pod: Pod, c: Cluster, names: seq<ObjectKey>, g: GWNets, d: Subnet, a: IP)
    returns (o: ObjectKey)
    requires forall o :: multiset(names)[o] == Mentions(pod, o)
    requires g in FlatMap(GatewayFun(c), names) && d in g.networks && d.family == a.family && d.bits <= a.bits
    ensures Claims(pod, c, o, d, a) && c.services[o].value == g.gateway
  {
    o := ServedEgress(pod, c, names, g);
    ServedMembers(c, o, g, d);
  }

  lemma {:induction false} ClaimedIsListed(pod: Pod, c: Cluster, names: seq<ObjectKey>, o: ObjectKey, d: Subnet, a: IP)
    returns (g: GWNets)
    requires forall o :: multiset(names)[o] == Mentions(pod, o)
    requires AllReadable(c, names) && Claims(pod, c, o, d, a)
    ensures g in FlatMap(GatewayFun(c), names) && d in g.networks && g.gateway == c.services[o].value
  {
    NamedIsMentioned(pod, c, names);
    g := GatewayListed(pod, c, names, o, d);
  }

  /** Owning an address among the gateways read is owning it in the cluster. */
  lemma {:induction false} OwnerInCluster(pod: Pod, c: Cluster, names: seq<ObjectKey>, g: GWNets, d: Subnet, a: IP)
    returns (o: ObjectKey)
    requires forall o :: multiset(names)[o] == Mentions(pod, o)
    requires AllReadable(c, names) && Owner(BuiltinPrivate(a.family), FlatMap(GatewayFun(c), names), g, d, a)
    ensures ClusterOwner(pod, c, o, d, a) && c.services[o].value == g.gateway
  {
    o := ListedIsClaimed(pod, c, names, g, d, a);
    forall o', d' | Claims(pod, c, o', d', a)
      ensures |d'.bits| <= |d.bits|
    {
      var g' := ClaimedIsListed(pod, c, names, o', d', a);
    }
  }

  lemma {:induction false} ClusterOwnerListed(pod: Pod, c: Cluster, names: seq<ObjectKey>, o: ObjectKey, d: Subnet, a: IP)
    returns (g: GWNets)
    requires forall o :: multiset(names)[o] == Mentions(pod, o)
    requires AllReadable(c, names) && ClusterOwner(pod, c, o, d, a)
    ensures Owner(BuiltinPrivate(a.family), FlatMap(GatewayFun(c), names), g, d, a) && g.gateway == c.services[o].value
  {
    g := ClaimedIsListed(pod, c, names, o, d, a);
    var l := FlatMap(GatewayFun(c), names);
    forall g', d' | g' in l && d' in g'.networks && d'.family == a.family && d'.bits <= a.bits
      ensures |d'.bits| <= |d.bits|
    {
      var o' := ListedIsClaimed(pod, c, names, g', d', a);
    }
  }

  /** Every listed gateway is a service the pod asks for, and every listed destination is one of its egress. */
  lemma {:induction false} ListedInCluster(pod: Pod, c: Cluster, names: seq<ObjectKey>, g: GWNets)
    requires forall o :: multiset(names)[o] == Mentions(pod, o)
    requires g in FlatMap(GatewayFun(c), names)
    ensures g.gateway in ServiceAddrs(pod, c)
    ensures forall d | d in g.networks ::
              exists o | Mentions(pod, o) > 0 && o in c.egresses :: Some(d) in c.egresses[o].destinations
  {
    var o := ServedEgress(pod, c, names, g);
    forall d | d in g.networks
      ensures Some(d) in c.egresses[o].destinations
    {
      ServedMembers(c, o, g, d);
    }
  }

  /** The names of the services' tunnels are without collisions and true, and no destination is one of the five
      exceptions. */
  ghost predicate FitsCluster(pod: Pod, c: Cluster, h: Hash, n: Net) {
    && NoCollision(h, ServiceAddrs(pod, c)) && TrueNames(h, n, ServiceAddrs(pod, c))
    && forall o, d: Subnet | Mentions(pod, o) > 0 && o in c.egresses && Some(d) in c.egresses[o].destinations ::
         d.bits !in Exceptions(d.family)
  }

  lemma {:induction false} FitsList(pod: Pod, c: Cluster, h: Hash, n: Net, names: seq<ObjectKey>)
    requires (forall o :: multiset(names)[o] == Mentions(pod, o)) && FitsCluster(pod, c, h, n)
    ensures var l := FlatMap(GatewayFun(c), names);
            && NoCollision(h, GatewaySet(l)) && TrueNames(h, n, GatewaySet(l))
            && forall g, d | g in l && d in g.networks :: d.bits !in Exceptions(d.family)
  {
    var l := FlatMap(GatewayFun(c), names);
    forall g | g in l
      ensures g.gateway in ServiceAddrs(pod, c)
      ensures forall d | d in g.networks :: d.bits !in Exceptions(d.family)
    {
      ListedInCluster(pod, c, names, g);
    }
    assert GatewaySet(l) <= ServiceAddrs(pod, c);
  }

  lemma {:induction false} ListReached(
    ipv4: bool, ipv6: bool, h: Hash, l: seq<GWNets>, n0: Net, b: Boot, n: Net, clean: bool, a: IP)
    requires SetupOutcome(AgentConfig(ipv4, ipv6), h, l, n0, b, n, false, clean)
    requires AgentConfig(ipv4, ipv6).Enabled(a.family) && !(LinkLocal(a.family) <= a.bits)
    requires QuietBefore(n0.Of(a.family), a.bits)
    requires NoCollision(h, GatewaySet(l)) && TrueNames(h, n0, GatewaySet(l))
    requires forall g, d | g in l && d in g.networks :: d.bits !in Exceptions(d.family)
    ensures OwnersReached(h, n, l, a)
  {
    forall x | x in Registered(n.Of(a.family))
      ensures x !in Exceptions(a.family)
    {
      NoExceptionRegistered(AgentConfig(ipv4, ipv6), h, n, l, a.family, x);
    }
    WalkLeadsToOwner(ipv4, ipv6, h, n0, n, l, a);
  }

  /** From the pod's annotations to the wire: after every successful set-up, whatever order the annotations were read
      in, a packet reaches a device exactly when some egress the pod asks for owns its address, and then over the live
      link to the service of that egress. All conditions are on the pod, the cluster and the namespace before. */
  lemma {:induction false} AddedPodReachesOwners(
    pod: Pod, ipv4: bool, ipv6: bool, h: Hash, c: Cluster, names: seq<ObjectKey>,
    n0: Net, b: Boot, n: Net, clean: bool, a: IP)
    requires forall o :: multiset(names)[o] == Mentions(pod, o)
    requires AddOutcome(AgentConfig(ipv4, ipv6), h, c, names, n0, b, n, false, clean)
    requires AgentConfig(ipv4, ipv6).Enabled(a.family) && !(LinkLocal(a.family) <= a.bits)
    requires QuietBefore(n0.Of(a.family), a.bits) && FitsCluster(pod, c, h, n0)
    requires exists o, d: Subnet | Mentions(pod, o) > 0 && o in c.egresses && Some(d) in c.egresses[o].destinations ::
               o in c.services && c.services[o].Some? && d.family == c.services[o].value.family
    ensures var fib := n.Of(a.family);
            && (Walk(fib.rules, fib, a.bits).Via? <==> exists o, d :: ClusterOwner(pod, c, o, d, a))
            && (forall o, d | ClusterOwner(pod, c, o, d, a) ::
                  var gw := c.services[o].value;
                  && Walk(fib.rules, fib, a.bits) == Via(FouName(h, gw))
                  && FouName(h, gw) in n.links && n.links[FouName(h, gw)] == Tunnel(gw))
  {
    var l, fib := FlatMap(GatewayFun(c), names), n.Of(a.family);
    NamedIsMentioned(pod, c, names);
    var o0, d0: Subnet :| Mentions(pod, o0) > 0 && o0 in c.egresses && Some(d0) in c.egresses[o0].destinations
                          && o0 in c.services && c.services[o0].Some? && d0.family == c.services[o0].value.family;
    var g0 := GatewayListed(pod, c, names, o0, d0);
    FitsList(pod, c, h, n0, names);
    ListReached(ipv4, ipv6, h, l, n0, b, n, clean, a);
    OwnersAreClusterOwners(pod, c, names, h, n, a);
  }

  lemma {:induction false} OwnersAreClusterOwners(pod: Pod, c: Cluster, names: seq<ObjectKey>, h: Hash, n: Net, a: IP)
    requires forall o :: multiset(names)[o] == Mentions(pod, o)
    requires AllReadable(c, names) && OwnersReached(h, n, FlatMap(GatewayFun(c), names), a)
    ensures var fib := n.Of(a.family);
            && (Walk(fib.rules, fib, a.bits).Via? <==> exists o, d :: ClusterOwner(pod, c, o, d, a))
            && (forall o, d | ClusterOwner(pod, c, o, d, a) ::
                  var gw := c.services[o].value;
                  && Walk(fib.rules, fib, a.bits) == Via(FouName(h, gw))
                  && FouName(h, gw) in n.links && n.links[FouName(h, gw)] == Tunnel(gw))
  {
    var l, fib, priv := FlatMap(GatewayFun(c), names), n.Of(a.family), BuiltinPrivate(a.family);
    if Walk(fib.rules, fib, a.bits).Via? {
      var g, d :| Owner(priv, l, g, d, a);
      var o := OwnerInCluster(pod, c, names, g, d, a);
    }
    forall o, d | ClusterOwner(pod, c, o, d, a)
      ensures exists g :: Owner(priv, l, g, d, a) && g.gateway == c.services[o].value
    {
      var g := ClusterOwnerListed(pod, c, names, o, d, a);
    }
  }

  // ---- the order of annotations: outcome and tables ----------------------------------------------

  lemma {:induction false} DistinctIsUnordered(es: seq<Entry>)
    ensures DistinctNets(es)
       <==> && (forall e :: multiset(es)[e] <= 1)
            && (forall e, e' | e in multiset(es) && e' in multiset(es) && e.net == e'.net :: e == e')
  {
    if DistinctNets(es) {
      DistinctCounts(es);
    } else {
      var i, j :| 0 <= i < j < |es| && es[i].net == es[j].net;
      assert es[i] in multiset(es) && es[j] in multiset(es);
      if es[i] == es[j] {
        assert es == es[..j] + [es[j]] + es[j + 1..];
        assert es[..j][i] == es[i] && es[i] in multiset(es[..j]);
        assert multiset(es)[es[i]] >= 2;
      }
    }
  }

  lemma {:induction false} DistinctCounts(es: seq<Entry>)
    requires DistinctNets(es)
    ensures forall e :: multiset(es)[e] <= 1
  {
    if es != [] {
      var k := |es| - 1;
      DistinctCounts(es[..k]);
      assert es == es[..k] + [es[k]];
      assert es[k] !in es[..k];
      assert es[k] !in multiset(es[..k]);
    }
  }

  lemma {:induction false} RouteOfEntry(es: seq<Entry>, e: Entry)
    requires DistinctNets(es) && e in es
    ensures e.net.bits in RoutesOf(es, e.net.family) && RoutesOf(es, e.net.family)[e.net.bits] == e.dev
  {
    var i :| 0 <= i < |es| && es[i] == e;
    assert e.net == Net4or6(e.net.family, e.net.bits);
    RoutesOfDev(es, e.net.family, e.net.bits);
  }

  lemma {:induction false} RoutesSubset(es: seq<Entry>, es': seq<Entry>, f: Family, n: Bits)
    requires DistinctNets(es) && DistinctNets(es') && multiset(es) == multiset(es') && n in RoutesOf(es, f)
    ensures n in RoutesOf(es', f) && RoutesOf(es', f)[n] == RoutesOf(es, f)[n]
  {
    RoutesOfDev(es, f, n);
    var i :| 0 <= i < |es| && es[i].net == Net4or6(f, n) && es[i].dev == RoutesOf(es, f)[n];
    assert es[i] in multiset(es');
    RouteOfEntry(es', es[i]);
  }

  /** Distinctness and the routes depend on the entries as a collection only. */
  lemma {:induction false} EntriesUnordered(es: seq<Entry>, es': seq<Entry>)
    requires multiset(es) == multiset(es')
    ensures DistinctNets(es) <==> DistinctNets(es')
    ensures DistinctNets(es) ==> forall f :: RoutesOf(es, f) == RoutesOf(es', f)
  {
    DistinctIsUnordered(es);
    DistinctIsUnordered(es');
    if DistinctNets(es) {
      forall f
        ensures RoutesOf(es, f) == RoutesOf(es', f)
      {
        forall n | n in RoutesOf(es, f) || n in RoutesOf(es', f)
          ensures n in RoutesOf(es, f) && n in RoutesOf(es', f) && RoutesOf(es', f)[n] == RoutesOf(es, f)[n]
        {
          if n in RoutesOf(es, f) {
            RoutesSubset(es, es', f, n);
          } else {
            RoutesSubset(es', es, f, n);
          }
        }
      }
    }
  }

  lemma {:induction false} TablesFromRegistered(fib: Fib, fib': Fib, priv: seq<Bits>, width: nat)
    requires Classified(fib, priv, width) && Classified(fib', priv, width) && Registered(fib) == Registered(fib')
    ensures fib.TableOf(NARROW_TABLE) == fib'.TableOf(NARROW_TABLE)
    ensures fib.TableOf(WIDE_TABLE) == fib'.TableOf(WIDE_TABLE)
  {
    TierFromRegistered(fib, priv, width);
    TierFromRegistered(fib', priv, width);
  }

  lemma TierFromRegistered(fib: Fib, priv: seq<Bits>, width: nat)
    requires Classified(fib, priv, width)
    ensures forall n | n in Registered(fib) :: |n| <= width
    ensures fib.TableOf(NARROW_TABLE) == map n | n in Registered(fib) && Narrow(priv, n, width) :: Registered(fib)[n]
    ensures fib.TableOf(WIDE_TABLE) == map n | n in Registered(fib) && !Narrow(priv, n, width) :: Registered(fib)[n]
  {
  }

  /** The two routing tables of the client, in the families the pod has. */
  ghost predicate SameTables(cfg: Config, n: Net, n': Net) {
    forall f, t | cfg.Enabled(f) && (t == NARROW_TABLE || t == WIDE_TABLE) :: n.Of(f).TableOf(t) == n'.Of(f).TableOf(t)
  }

  lemma {:induction false} SameEntriesSameTables(cfg: Config, h: Hash, l: seq<GWNets>, l': seq<GWNets>, n: Net, n': Net)
    requires multiset(l) == multiset(l')
    ensures DistinctNets(AllEntries(cfg, h, l)) <==> DistinctNets(AllEntries(cfg, h, l'))
    ensures Ready(cfg, h, n, l) && Ready(cfg, h, n', l') ==> SameTables(cfg, n, n')
  {
    FlatMapReordered(EntryFun(cfg, h), l, l');
    EntriesUnordered(AllEntries(cfg, h, l), AllEntries(cfg, h, l'));
    if Ready(cfg, h, n, l) && Ready(cfg, h, n', l') {
      forall f | cfg.Enabled(f)
        ensures n.Of(f).TableOf(NARROW_TABLE) == n'.Of(f).TableOf(NARROW_TABLE)
        ensures n.Of(f).TableOf(WIDE_TABLE) == n'.Of(f).TableOf(WIDE_TABLE)
      {
        TablesFromRegistered(n.Of(f), n'.Of(f), cfg.Priv(f), Width(f));
      }
    }
  }

  /** Both name lists are readings of the annotations of one pod. */
  lemma {:induction false} SameNames(pod: Pod, c: Cluster, names: seq<ObjectKey>, names': seq<ObjectKey>)
    requires forall o :: multiset(names)[o] == Mentions(pod, o)
    requires forall o :: multiset(names')[o] == Mentions(pod, o)
    ensures AllReadable(c, names) <==> AllReadable(c, names')
    ensures multiset(FlatMap(GatewayFun(c), names)) == multiset(FlatMap(GatewayFun(c), names'))
  {
    assert multiset(names) == multiset(names');
    assert forall o :: o in names <==> o in multiset(names);
    assert forall o :: o in names' <==> o in multiset(names');
    FlatMapReordered(GatewayFun(c), names, names');
  }

  lemma {:induction false} SetupAnyOrder(
    cfg: Config, h: Hash, n0: Net, b: Boot,
    l: seq<GWNets>, n: Net, err: bool, clean: bool, l': seq<GWNets>, n': Net, err': bool, clean': bool)
    requires multiset(l) == multiset(l')
    requires SetupOutcome(cfg, h, l, n0, b, n, err, clean) && SetupOutcome(cfg, h, l', n0, b, n', err', clean')
    ensures clean && clean' ==> err == err'
    ensures !err && !err' ==> SameTables(cfg, n, n')
  {
    SameEntriesSameTables(cfg, h, l, l', n, n');
    ClashingAnyOrder(cfg, h, n0, l, l');
  }

  lemma {:induction false} ClashingAnyOrder(cfg: Config, h: Hash, n: Net, l: seq<GWNets>, l': seq<GWNets>)
    requires multiset(l) == multiset(l')
    ensures Clashing(cfg, h, n, l) <==> Clashing(cfg, h, n, l')
  {
    assert forall g :: g in l <==> g in multiset(l);
    assert forall g :: g in l' <==> g in multiset(l');
  }

  /** Two set-ups of one pod from the same state, whatever order the annotations are read in, both succeed or both
      fail unless a kernel call fails, and if both succeed they leave equal tables. */
  lemma {:induction false} AnyOrderSameOutcome(
    pod: Pod, c: Cluster, cfg: Config, h: Hash, n0: Net, b: Boot,
    names: seq<ObjectKey>, n: Net, err: bool, clean: bool, names': seq<ObjectKey>, n': Net, err': bool, clean': bool)
    requires forall o :: multiset(names)[o] == Mentions(pod, o)
    requires forall o :: multiset(names')[o] == Mentions(pod, o)
    requires AddOutcome(cfg, h, c, names, n0, b, n, err, clean)
    requires AddOutcome(cfg, h, c, names', n0, b, n', err', clean')
    ensures clean && clean' ==> err == err'
    ensures !err && !err' ==> SameTables(cfg, n, n')
  {
    var l, l' := FlatMap(GatewayFun(c), names), FlatMap(GatewayFun(c), names');
    SameNames(pod, c, names, names');
    assert l == [] <==> |multiset(l)| == 0;
    assert l' == [] <==> |multiset(l')| == 0;
    if AllReadable(c, names) && l != [] {
      SetupAnyOrder(cfg, h, n0, b, l, n, err, clean, l', n', err', clean');
    }
  }
}
