/** The node agent: from a pod's annotations to tunnels and routes in the pod's namespace. */
module Agents {
  import opened Options
  import opened Cidr
  import opened Kernel
  import opened Routing
  import opened LinkNames
  import opened RuleBands
  import opened NatClients
  import opened FouTunnels
  import opened Bootstrap
  import opened ReceiveDevices
  import opened Annotations

  // ---- lists up to order -----------------------------------------------------------------------

  function FlatMap<T, U>(f: T -> seq<U>, s: seq<T>): seq<U> {
    if s == [] then [] else FlatMap(f, s[..|s| - 1]) + f(s[|s| - 1])
  }

  lemma {:induction false} FlatMapConcat<T, U>(f: T -> seq<U>, s: seq<T>, t: seq<T>)
    ensures FlatMap(f, s + t) == FlatMap(f, s) + FlatMap(f, t)
  {
    if t == [] {
      assert s + t == s;
    } else {
      var k := |t| - 1;
      assert (s + t)[..|s + t| - 1] == s + t[..k];
      FlatMapConcat(f, s, t[..k]);
    }
  }

  lemma {:induction false} FlatMapOne<T, U>(f: T -> seq<U>, x: T)
    ensures FlatMap(f, [x]) == f(x)
  {
  }

  lemma {:induction false} FlatMapAround<T, U>(f: T -> seq<U>, p: seq<T>, x: T, q: seq<T>)
    ensures multiset(FlatMap(f, p + [x] + q)) == multiset(FlatMap(f, p + q)) + multiset(f(x))
  {
    FlatMapConcat(f, p + [x], q);
    FlatMapConcat(f, p, [x]);
    FlatMapConcat(f, p, q);
    FlatMapOne(f, x);
  }

  /** Reordering the input only reorders the output. */
  lemma {:induction false} FlatMapReordered<T, U>(f: T -> seq<U>, s: seq<T>, t: seq<T>)
    requires multiset(s) == multiset(t)
    ensures multiset(FlatMap(f, s)) == multiset(FlatMap(f, t))
  {
    if s == [] {
      assert |multiset(t)| == 0 && t == [];
    } else {
      var k := |s| - 1;
      var x := s[k];
      assert s == s[..k] + [x] + [];
      assert x in multiset(t);
      var i :| 0 <= i < |t| && t[i] == x;
      assert t == t[..i] + [x] + t[i + 1..];
      assert multiset(s[..k]) == multiset(s) - multiset{x};
      assert multiset(t[..i] + t[i + 1..]) == multiset(t) - multiset{x};
      FlatMapReordered(f, s[..k], t[..i] + t[i + 1..]);
      FlatMapAround(f, s[..k], x, []);
      FlatMapAround(f, t[..i], x, t[i + 1..]);
      assert s[..k] + [] == s[..k];
    }
  }

  lemma {:induction false} FlatMapMembers<T, U>(f: T -> seq<U>, s: seq<T>, y: U)
    ensures y in FlatMap(f, s) <==> exists x | x in s :: y in f(x)
  {
    if s != [] {
      var k := |s| - 1;
      FlatMapMembers(f, s[..k], y);
      assert s == s[..k] + [s[k]];
    }
  }

  // ---- gateways of a pod -------------------------------------------------------------------------

  datatype GWNets = GWNets(gateway: IP, networks: seq<Subnet>)

  /** Destinations as parsed; `None` is one that is not a network. */
  datatype Egress = Egress(destinations: seq<Option<Subnet>>)

  /** What the agent can read: egresses and the parsed cluster addresses of their services. */
  datatype Cluster = Cluster(egresses: map<ObjectKey, Egress>, services: map<ObjectKey, Option<IP>>)

  /** The destinations of one address family, in order. */
  function FamilyNets(ds: seq<Option<Subnet>>, f: Family): seq<Subnet> {
    if ds == [] then []
    else
      var k := |ds| - 1;
      FamilyNets(ds[..k], f) + (if ds[k].Some? && ds[k].value.family == f then [ds[k].value] else [])
  }

  /** They are exactly the networks of that family among the destinations. */
  lemma {:induction false} FamilyNetsMembers(ds: seq<Option<Subnet>>, f: Family, n: Subnet)
    ensures n in FamilyNets(ds, f) <==> Some(n) in ds && n.family == f
  {
    if ds != [] {
      var k := |ds| - 1;
      FamilyNetsMembers(ds[..k], f, n);
      assert ds == ds[..k] + [ds[k]];
    }
  }

  /** Their positions in the list. */
  ghost function Positions(ds: seq<Option<Subnet>>, f: Family): seq<nat> {
    if ds == [] then []
    else
      var k := |ds| - 1;
      Positions(ds[..k], f) + (if ds[k].Some? && ds[k].value.family == f then [k] else [])
  }

  ghost predicate PositionsOf(at: seq<nat>, nets: seq<Subnet>, ds: seq<Option<Subnet>>, f: Family) {
    && |at| == |nets|
    && (forall i, j | 0 <= i < j < |at| :: at[i] < at[j])
    && (forall i :: i in at <==> 0 <= i < |ds| && ds[i].Some? && ds[i].value.family == f)
    && (forall j | 0 <= j < |at| :: at[j] < |ds| && ds[at[j]] == Some(nets[j]))
  }

  lemma {:induction false} PositionsSkip(
    at: seq<nat>, nets: seq<Subnet>, ds: seq<Option<Subnet>>, f: Family, d: Option<Subnet>)
    requires PositionsOf(at, nets, ds, f) && !(d.Some? && d.value.family == f)
    ensures PositionsOf(at, nets, ds + [d], f)
  {
  }

  lemma {:induction false} PositionsTake(at: seq<nat>, nets: seq<Subnet>, ds: seq<Option<Subnet>>, f: Family, n: Subnet)
    requires PositionsOf(at, nets, ds, f) && n.family == f
    ensures PositionsOf(at + [|ds|], nets + [n], ds + [Some(n)], f)
  {
    assert forall j | 0 <= j < |at| :: at[j] in at;
  }

  lemma {:induction false} PositionsOfNets(ds: seq<Option<Subnet>>, f: Family)
    ensures PositionsOf(Positions(ds, f), FamilyNets(ds, f), ds, f)
  {
    if ds != [] {
      var k := |ds| - 1;
      PositionsOfNets(ds[..k], f);
      assert ds == ds[..k] + [ds[k]];
      if ds[k].Some? && ds[k].value.family == f {
        PositionsTake(Positions(ds[..k], f), FamilyNets(ds[..k], f), ds[..k], f, ds[k].value);
      } else {
        PositionsSkip(Positions(ds[..k], f), FamilyNets(ds[..k], f), ds[..k], f, ds[k]);
      }
    }
  }

  lemma CountSnoc<T>(s: seq<T>, x: T, y: T)
    ensures multiset(s + [x])[y] == multiset(s)[y] + if x == y then 1 else 0
  {
  }

  lemma {:induction false} FamilyNetsSnoc(ds: seq<Option<Subnet>>, f: Family, d: Option<Subnet>)
    ensures FamilyNets(ds + [d], f)
         == if d.Some? && d.value.family == f then FamilyNets(ds, f) + [d.value] else FamilyNets(ds, f)
  {
    assert (ds + [d])[..|ds|] == ds;
  }

  /** Nothing is lost or repeated. */
  lemma {:induction false} FamilyNetsCount(ds: seq<Option<Subnet>>, f: Family, n: Subnet)
    ensures multiset(FamilyNets(ds, f))[n] == if n.family == f then multiset(ds)[Some(n)] else 0
  {
    if ds != [] {
      var k := |ds| - 1;
      var rest, d := ds[..k], ds[k];
      assert ds == rest + [d];
      FamilyNetsCount(rest, f, n);
      FamilyNetsSnoc(rest, f, d);
      CountSnoc(rest, d, Some(n));
      if d.Some? && d.value.family == f {
        CountSnoc(FamilyNets(rest, f), d.value, n);
      }
    }
  }

  /** `g` is the address of the service and all destinations of the service's family, as often as listed. */
  ghost predicate Serves(c: Cluster, o: ObjectKey, g: GWNets) {
    && o in c.services && c.services[o] == Some(g.gateway)
    && o in c.egresses && None !in c.egresses[o].destinations
    && forall n: Subnet ::
         multiset(g.networks)[n] == if n.family == g.gateway.family then multiset(c.egresses[o].destinations)[Some(n)] else 0
  }

  /** The egress and its service can be read, and every destination is a network. */
  predicate Readable(c: Cluster, o: ObjectKey) {
    o in c.egresses && o in c.services && c.services[o].Some? && None !in c.egresses[o].destinations
  }

  lemma {:induction false} GatewayServes(c: Cluster, o: ObjectKey)
    ensures GatewayOf(c, o).Some? <==> Readable(c, o)
    ensures GatewayOf(c, o).Some? ==> Serves(c, o, GatewayOf(c, o).value)
  {
    if GatewayOf(c, o).Some? {
      var ds, f := c.egresses[o].destinations, c.services[o].value.family;
      forall n: Subnet
        ensures multiset(FamilyNets(ds, f))[n] == if n.family == f then multiset(ds)[Some(n)] else 0
      {
        FamilyNetsCount(ds, f, n);
      }
    }
  }

  lemma {:induction false} ServedMembers(c: Cluster, o: ObjectKey, g: GWNets, n: Subnet)
    requires Serves(c, o, g)
    ensures n in g.networks <==> Some(n) in c.egresses[o].destinations && n.family == g.gateway.family
  {
    assert n in g.networks <==> n in multiset(g.networks);
    assert Some(n) in c.egresses[o].destinations <==> Some(n) in multiset(c.egresses[o].destinations);
  }

  /** Every named egress has a readable gateway. */
  ghost predicate AllReadable(c: Cluster, names: seq<ObjectKey>) {
    forall o | o in names :: GatewayOf(c, o).Some?
  }

  /** The gateway of one egress; `None` when it cannot be determined. */
  function GatewayOf(c: Cluster, o: ObjectKey): Option<GWNets> {
    if o !in c.egresses || o !in c.services || c.services[o].None? || None in c.egresses[o].destinations then None
    else
      var ip := c.services[o].value;
      Some(GWNets(ip, FamilyNets(c.egresses[o].destinations, ip.family)))
  }

  function GatewayFun(c: Cluster): ObjectKey -> seq<GWNets> {
    (o: ObjectKey) =>
      match GatewayOf(c, o)
      case None => []
      case Some(g) => if g.networks == [] then [] else [g]
  }

  /** Every network of a gateway has the gateway's address family. */
  ghost predicate SameFamily(l: seq<GWNets>) {
    forall g, n | g in l && n in g.networks :: n.family == g.gateway.family
  }

  /** The gateway of one egress: the address of its service and, in order, exactly the destinations of that family;
      `at` are their positions. */
  method ReadGateway(c: Cluster, o: ObjectKey) returns (r: Option<GWNets>, ghost at: seq<nat>)
    ensures r == GatewayOf(c, o)
    ensures r.Some? <==> o in c.egresses && o in c.services && c.services[o].Some? && None !in c.egresses[o].destinations
    ensures r.Some? ==> r.value.gateway == c.services[o].value && |at| == |r.value.networks|
    ensures r.Some? ==> forall i, j | 0 <= i < j < |at| :: at[i] < at[j]
    ensures r.Some? ==>
              var ds := c.egresses[o].destinations;
              && (forall i :: i in at <==> 0 <= i < |ds| && ds[i].Some? && ds[i].value.family == r.value.gateway.family)
              && (forall j | 0 <= j < |at| :: at[j] < |ds| && ds[at[j]] == Some(r.value.networks[j]))
  {
    if o !in c.egresses {
      return None, [];
    }
    if o !in c.services {
      return None, [];
    }
    if c.services[o].None? {
      return None, [];
    }
    var ip := c.services[o].value;
    var ds := c.egresses[o].destinations;
    var subnets: seq<Subnet> := [];
    for i := 0 to |ds|
      invariant None !in ds[..i] && subnets == FamilyNets(ds[..i], ip.family)
    {
      assert ds[..i + 1][..i] == ds[..i];
      if ds[i].None? {
        return None, [];
      }
      assert ds[..i + 1] == ds[..i] + [ds[i]];
      if ds[i].value.family == ip.family {
        subnets := subnets + [ds[i].value];
      }
    }
    assert ds[..|ds|] == ds;
    PositionsOfNets(ds, ip.family);
    at := Positions(ds, ip.family);
    r := Some(GWNets(ip, subnets));
  }

  lemma {:induction false} GatewaysSameFamily(c: Cluster, names: seq<ObjectKey>)
    ensures SameFamily(FlatMap(GatewayFun(c), names))
  {
    if names != [] {
      var k := |names| - 1;
      GatewaysSameFamily(c, names[..k]);
      if GatewayOf(c, names[k]).Some? {
        var ds, f := c.egresses[names[k]].destinations, c.services[names[k]].value.family;
        forall n | n in FamilyNets(ds, f)
          ensures n.family == f
        {
          FamilyNetsMembers(ds, f, n);
        }
      }
    }
  }

  lemma {:induction false} FlatMapStep<T, U>(f: T -> seq<U>, s: seq<T>, i: nat)
    requires i < |s|
    ensures FlatMap(f, s[..i + 1]) == FlatMap(f, s[..i]) + f(s[i])
  {
    assert s[..i + 1][..i] == s[..i];
  }

  /** The gateways of a pod in the order its annotations happened to be read (`names`). It succeeds exactly when all
      that is mentioned can be read; every gateway serves a mentioned egress, and every mentioned egress with a
      destination of its service's family has its gateway. */
  method GetGWNets(pod: Pod, c: Cluster) returns (r: Option<seq<GWNets>>, ghost names: seq<ObjectKey>)
    ensures r.Some? <==> forall o | Mentions(pod, o) > 0 ::
                           o in c.egresses && o in c.services && c.services[o].Some? && None !in c.egresses[o].destinations
    ensures r.Some? ==> SameFamily(r.value)
    ensures r.Some? ==> forall g | g in r.value :: g.networks != [] && exists o | Mentions(pod, o) > 0 :: Serves(c, o, g)
    ensures r.Some? ==>
              forall o, n: Subnet | Mentions(pod, o) > 0 && Some(n) in c.egresses[o].destinations
                                    && n.family == c.services[o].value.family ::
                exists g | g in r.value :: Serves(c, o, g) && n in g.networks
    ensures forall o :: multiset(names)[o] == Mentions(pod, o)
    ensures r.Some? <==> AllReadable(c, names)
    ensures r.Some? ==> r.value == FlatMap(GatewayFun(c), names)
  {
    var egNames := Expand(pod);
    names := egNames;
    GatewaysSameFamily(c, names);
    NamedIsMentioned(pod, c, names);
    r := ReadGateways(c, egNames);
    if r.Some? {
      forall g | g in r.value
        ensures g.networks != [] && exists o | Mentions(pod, o) > 0 :: Serves(c, o, g)
      {
        var o := ServedEgress(pod, c, names, g);
      }
      forall o, n: Subnet | Mentions(pod, o) > 0 && Some(n) in c.egresses[o].destinations
                            && n.family == c.services[o].value.family
        ensures exists g | g in r.value :: Serves(c, o, g) && n in g.networks
      {
        var g := GatewayListed(pod, c, names, o, n);
      }
    }
  }

  /** Being named is being mentioned. */
  lemma {:induction false} NamedIsMentioned(pod: Pod, c: Cluster, names: seq<ObjectKey>)
    requires forall o :: multiset(names)[o] == Mentions(pod, o)
    ensures forall o :: o in names <==> Mentions(pod, o) > 0
    ensures AllReadable(c, names) <==> forall o | Mentions(pod, o) > 0 :: Readable(c, o)
  {
    forall o
      ensures o in names <==> Mentions(pod, o) > 0
      ensures GatewayOf(c, o).Some? <==> Readable(c, o)
    {
      assert o in names <==> o in multiset(names);
      GatewayServes(c, o);
    }
  }

  /** Every gateway in the list serves a mentioned egress. */
  lemma {:induction false} ServedEgress(pod: Pod, c: Cluster, names: seq<ObjectKey>, g: GWNets) returns (o: ObjectKey)
    requires forall o :: multiset(names)[o] == Mentions(pod, o)
    requires g in FlatMap(GatewayFun(c), names)
    ensures Mentions(pod, o) > 0 && Serves(c, o, g) && g.networks != []
  {
    FlatMapMembers(GatewayFun(c), names, g);
    o :| o in names && g in GatewayFun(c)(o);
    NamedIsMentioned(pod, c, names);
    GatewayServes(c, o);
  }

  /** A mentioned egress with a destination of its service's family has its gateway in the list. */
  lemma {:induction false} GatewayListed(pod: Pod, c: Cluster, names: seq<ObjectKey>, o: ObjectKey, n: Subnet)
    returns (g: GWNets)
    requires forall o :: multiset(names)[o] == Mentions(pod, o)
    requires Mentions(pod, o) > 0 && Readable(c, o)
    requires Some(n) in c.egresses[o].destinations && n.family == c.services[o].value.family
    ensures g in FlatMap(GatewayFun(c), names) && Serves(c, o, g) && n in g.networks
  {
    NamedIsMentioned(pod, c, names);
    GatewayServes(c, o);
    g := GatewayOf(c, o).value;
    ServedMembers(c, o, g, n);
    assert g in GatewayFun(c)(o);
    FlatMapMembers(GatewayFun(c), names, g);
  }

  lemma {:induction false} ReadStep(c: Cluster, names: seq<ObjectKey>, i: nat)
    requires i < |names|
    ensures AllReadable(c, names) ==> GatewayOf(c, names[i]).Some?
    ensures AllReadable(c, names[..i]) && GatewayOf(c, names[i]).Some? ==> AllReadable(c, names[..i + 1])
    ensures GatewayOf(c, names[i]).Some? ==>
              var g := GatewayOf(c, names[i]).value;
              FlatMap(GatewayFun(c), names[..i + 1])
              == FlatMap(GatewayFun(c), names[..i]) + if g.networks == [] then [] else [g]
  {
    assert names[i] in names;
    assert names[..i + 1] == names[..i] + [names[i]];
    FlatMapStep(GatewayFun(c), names, i);
  }

  method ReadGateways(c: Cluster, egNames: seq<ObjectKey>) returns (r: Option<seq<GWNets>>)
    ensures r.Some? <==> AllReadable(c, egNames)
    ensures r.Some? ==> r.value == FlatMap(GatewayFun(c), egNames)
  {
    var gwlist: seq<GWNets> := [];
    for i := 0 to |egNames|
      invariant gwlist == FlatMap(GatewayFun(c), egNames[..i])
      invariant AllReadable(c, egNames[..i])
    {
      ReadStep(c, egNames, i);
      ghost var at;
      var g;
      g, at := ReadGateway(c, egNames[i]);
      if g.None? {
        return None;
      }
      if g.value.networks != [] {
        gwlist := gwlist + [g.value];
      }
    }
    assert egNames[..|egNames|] == egNames;
    r := Some(gwlist);
  }

  // ---- routes of a pod ---------------------------------------------------------------------------

  function AgentConfig(ipv4: bool, ipv6: bool): Config {
    Config(ipv4, ipv6, V4_PRIVATE, V6_PRIVATE)
  }

  /** The routes a gateway gives: none if the pod lacks the gateway's address family. */
  function EntryFun(cfg: Config, h: Hash): GWNets -> seq<Entry> {
    (g: GWNets) => if cfg.Enabled(g.gateway.family) then Usable(cfg, FouName(h, g.gateway), g.networks) else []
  }

  function AllEntries(cfg: Config, h: Hash, l: seq<GWNets>): seq<Entry> {
    FlatMap(EntryFun(cfg, h), l)
  }

  ghost function GatewaySet(l: seq<GWNets>): set<IP> {
    set g | g in l :: g.gateway
  }

  ghost predicate Live(cfg: Config, h: Hash, n: Net, l: seq<GWNets>) {
    forall g | g in l && cfg.Enabled(g.gateway.family) ::
      FouName(h, g.gateway) in n.links && n.links[FouName(h, g.gateway)] == Tunnel(g.gateway)
  }

  /** Rules are canonical and the two tables hold exactly the routes of the gateways. */
  ghost predicate Ready(cfg: Config, h: Hash, n: Net, l: seq<GWNets>) {
    && Holds(n, cfg, AllEntries(cfg, h, l))
    && (cfg.ipv4 ==> n.v4.rules == Canonical(n.v4.rules, LinkLocal(V4), cfg.v4priv))
    && (cfg.ipv6 ==> n.v6.rules == Canonical(n.v6.rules, LinkLocal(V6), cfg.v6priv))
  }

  lemma {:induction false} RoutesOfDev(es: seq<Entry>, f: Family, n: Bits)
    requires n in RoutesOf(es, f)
    ensures exists i | 0 <= i < |es| :: es[i].net == Net4or6(f, n) && es[i].dev == RoutesOf(es, f)[n]
  {
    var k := |es| - 1;
    if es[k].net == Net4or6(f, n) {
      assert es[k].dev == RoutesOf(es, f)[n];
    } else {
      RoutesOfDev(es[..k], f, n);
      var i :| 0 <= i < k && es[..k][i].net == Net4or6(f, n) && es[..k][i].dev == RoutesOf(es[..k], f)[n];
      assert es[i].net == Net4or6(f, n);
    }
  }

  lemma {:induction false} EntryDevs(cfg: Config, h: Hash, l: seq<GWNets>, i: nat)
    requires i < |AllEntries(cfg, h, l)|
    ensures exists g | g in l && cfg.Enabled(g.gateway.family) ::
              AllEntries(cfg, h, l)[i].dev == FouName(h, g.gateway) && AllEntries(cfg, h, l)[i].net in g.networks
  {
    var k := |l| - 1;
    var es := AllEntries(cfg, h, l[..k]);
    if i < |es| {
      EntryDevs(cfg, h, l[..k], i);
    } else {
      UsableFrom(cfg, FouName(h, l[k].gateway), l[k].networks, i - |es|);
    }
  }

  lemma {:induction false} UsableFrom(cfg: Config, dev: string, nets: seq<Subnet>, i: nat)
    requires i < |Usable(cfg, dev, nets)|
    ensures Usable(cfg, dev, nets)[i].net in nets && Usable(cfg, dev, nets)[i].dev == dev
  {
    var k := |nets| - 1;
    if i < |Usable(cfg, dev, nets[..k])| {
      UsableFrom(cfg, dev, nets[..k], i);
    }
  }

  // ---- what set-up leaves alone ------------------------------------------------------------------------

  /** Of one family: the rules outside the client's band, or all of them if the pod lacks the family, and the
      tables that are not the client's, up to routes through fixed devices. */
  ghost predicate KeptFib(enabled: bool, a: Fib, b: Fib) {
    && (if enabled then OutOfBand(a.rules) == OutOfBand(b.rules) else a.rules == b.rules)
    && forall t | !(enabled && (t == NARROW_TABLE || t == WIDE_TABLE)) :: FixedOnly(a.TableOf(t), b.TableOf(t))
  }

  /** Everything that is neither the client's nor a fixed device. */
  ghost predicate Kept(cfg: Config, a: Net, b: Net) {
    && KeptFib(cfg.ipv4, a.v4, b.v4) && KeptFib(cfg.ipv6, a.v6, b.v6)
    && forall x | x in a.links && x !in FIXED_NAMES :: x in b.links && b.links[x] == a.links[x]
  }

  lemma {:induction false} KeptRefl(cfg: Config, a: Net)
    ensures Kept(cfg, a, a)
  {
  }

  lemma {:induction false} KeptFibTrans(enabled: bool, a: Fib, b: Fib, c: Fib)
    requires KeptFib(enabled, a, b) && KeptFib(enabled, b, c)
    ensures KeptFib(enabled, a, c)
  {
    forall t | !(enabled && (t == NARROW_TABLE || t == WIDE_TABLE))
      ensures FixedOnly(a.TableOf(t), c.TableOf(t))
    {
      assert FixedOnly(a.TableOf(t), b.TableOf(t)) && FixedOnly(b.TableOf(t), c.TableOf(t));
    }
  }

  lemma {:induction false} KeptTrans(cfg: Config, a: Net, b: Net, c: Net)
    requires Kept(cfg, a, b) && Kept(cfg, b, c)
    ensures Kept(cfg, a, c)
  {
    KeptFibTrans(cfg.ipv4, a.v4, b.v4, c.v4);
    KeptFibTrans(cfg.ipv6, a.v6, b.v6, c.v6);
  }

  lemma {:induction false} ClientKeeps(cfg: Config, a: Net, b: Net)
    requires SameOutside(a, b, cfg)
    ensures Kept(cfg, a, b)
  {
  }

  lemma {:induction false} MarkerKeeps(cfg: Config, a: Net, b: Net)
    requires OnlyMarked(a, b, FOU_DUMMY)
    ensures Kept(cfg, a, b)
  {
  }

  lemma {:induction false} PeerKeeps(cfg: Config, h: Hash, a: Net, b: Net, peer: IP)
    requires PeerCut(h, a, b, peer)
    ensures Kept(cfg, a, b)
  {
    if b != a {
      var m := WithTunnel(h, a, peer);
      assert m.v4 == a.v4 && m.v6 == a.v6;
      assert forall x | x in a.links && x !in FIXED_NAMES :: x in m.links && m.links[x] == a.links[x];
    }
  }

  // ---- the peers of a pod ------------------------------------------------------------------------------

  function PeerFun(cfg: Config): GWNets -> seq<IP> {
    (g: GWNets) => if cfg.Enabled(g.gateway.family) then [g.gateway] else []
  }

  /** The gateways that get a tunnel, in order. */
  function Peers(cfg: Config, l: seq<GWNets>): seq<IP> {
    FlatMap(PeerFun(cfg), l)
  }

  /** Some tunnel to be created finds its family's fallback device in the way. */
  ghost predicate Clashing(cfg: Config, h: Hash, n: Net, l: seq<GWNets>) {
    exists g | g in l :: cfg.Enabled(g.gateway.family) && PeerClash(h, n, g.gateway)
  }

  /** The set-up so far, without faults: what the first gateways left of the devices, none of them in clash. */
  ghost predicate PeersDone(cfg: Config, h: Hash, n0: Net, n: Net, l: seq<GWNets>) {
    && Devs(n) == AfterPeers(h, Devs(n0), Peers(cfg, l))
    && (forall f :: Clash(n, f) <==> Clash(n0, f))
    && !Clashing(cfg, h, n0, l)
  }

  /** One gateway, without faults. */
  ghost predicate PeerDone(cfg: Config, h: Hash, n: Net, n': Net, a: IP) {
    && (forall f :: Clash(n', f) <==> Clash(n, f))
    && if cfg.Enabled(a.family) then !PeerClash(h, n, a) && Devs(n') == AfterPeer(h, Devs(n), a) else Devs(n') == Devs(n)
  }

  lemma {:induction false} PeersAppend(cfg: Config, l: seq<GWNets>, g: GWNets)
    ensures Peers(cfg, l + [g]) == Peers(cfg, l) + if cfg.Enabled(g.gateway.family) then [g.gateway] else []
  {
    FlatMapConcat(PeerFun(cfg), l, [g]);
    FlatMapOne(PeerFun(cfg), g);
  }

  /** A link up after some gateways was there before or belongs to one of them. */
  lemma {:induction false} LinkOfPeer(cfg: Config, h: Hash, n0: Net, n: Net, l: seq<GWNets>, a: IP)
    requires PeersDone(cfg, h, n0, n, l)
    ensures FouName(h, a) in n0.links ==> FouName(h, a) in n.links
    ensures FouName(h, a) in n.links && FouName(h, a) !in n0.links ==> !Clash(n0, a.family)
  {
    FouNameNotFixed(h, a);
    var x := FouName(h, a);
    AfterPeersUp(h, Devs(n0), Peers(cfg, l));
    assert x in n.links <==> x in Devs(n).up;
    assert x in n0.links <==> x in Devs(n0).up;
    if x in n.links && x !in n0.links {
      assert x in Names(h, Peers(cfg, l));
      var b :| b in Peers(cfg, l) && FouName(h, b) == x;
      FouNameInjective(h, a, b);
      FlatMapMembers(PeerFun(cfg), l, b);
      var g :| g in l && b in PeerFun(cfg)(g);
      assert !(cfg.Enabled(g.gateway.family) && PeerClash(h, n0, g.gateway));
    }
  }

  lemma {:induction false} DevsStep(cfg: Config, h: Hash, d: Devices, l: seq<GWNets>, g: GWNets)
    ensures var d1 := AfterPeers(h, d, Peers(cfg, l));
            AfterPeers(h, d, Peers(cfg, l + [g]))
            == if cfg.Enabled(g.gateway.family) then AfterPeer(h, d1, g.gateway) else d1
  {
    PeersAppend(cfg, l, g);
    if cfg.Enabled(g.gateway.family) {
      AfterPeersConcat(h, d, Peers(cfg, l), [g.gateway]);
      AfterOne(h, AfterPeers(h, d, Peers(cfg, l)), g.gateway);
    } else {
      assert Peers(cfg, l) + [] == Peers(cfg, l);
    }
  }

  lemma {:induction false} ClashingStep(cfg: Config, h: Hash, n: Net, l: seq<GWNets>, g: GWNets)
    requires !Clashing(cfg, h, n, l) && !(cfg.Enabled(g.gateway.family) && PeerClash(h, n, g.gateway))
    ensures !Clashing(cfg, h, n, l + [g])
  {
    assert forall x :: x in l + [g] <==> x in l || x == g;
  }

  lemma {:induction false} PeersDoneStep(cfg: Config, h: Hash, n0: Net, n: Net, n': Net, l: seq<GWNets>, g: GWNets)
    requires PeersDone(cfg, h, n0, n, l) && PeerDone(cfg, h, n, n', g.gateway)
    ensures PeersDone(cfg, h, n0, n', l + [g])
  {
    LinkOfPeer(cfg, h, n0, n, l, g.gateway);
    DevsStep(cfg, h, Devs(n0), l, g);
    ClashingStep(cfg, h, n0, l, g);
  }

  lemma {:induction false} ClashFromStart(cfg: Config, h: Hash, n0: Net, n: Net, l: seq<GWNets>, i: nat)
    requires i < |l| && PeersDone(cfg, h, n0, n, l[..i])
    requires cfg.Enabled(l[i].gateway.family) && PeerClash(h, n, l[i].gateway)
    ensures Clashing(cfg, h, n0, l)
  {
    LinkOfPeer(cfg, h, n0, n, l[..i], l[i].gateway);
    assert l[i] in l;
  }

  // ---- setting up a pod ----------------------------------------------------------------------------

  lemma HeldRoute(n: Net, cfg: Config, es: seq<Entry>, f: Family, t: int, d: Bits)
    requires Holds(n, cfg, es) && cfg.Enabled(f) && (t == NARROW_TABLE || t == WIDE_TABLE)
    requires d in n.Of(f).TableOf(t)
    ensures d in Registered(n.Of(f)) && Registered(n.Of(f))[d] == n.Of(f).TableOf(t)[d]
  {
  }

  lemma {:induction false} HeldDevices(n: Net, cfg: Config, es: seq<Entry>, f: Family)
    requires Holds(n, cfg, es) && cfg.Enabled(f)
    requires forall i | 0 <= i < |es| :: es[i].dev !in FIXED_NAMES
    ensures NoFixedDevice(n.Of(f).TableOf(NARROW_TABLE)) && NoFixedDevice(n.Of(f).TableOf(WIDE_TABLE))
  {
    forall d, t | (t == NARROW_TABLE || t == WIDE_TABLE) && d in n.Of(f).TableOf(t)
      ensures n.Of(f).TableOf(t)[d] !in FIXED_NAMES
    {
      HeldRoute(n, cfg, es, f, t, d);
      RoutesOfDev(es, f, d);
    }
  }

  lemma {:induction false} HeldAcross(n: Net, n': Net, cfg: Config, es: seq<Entry>)
    requires Holds(n, cfg, es)
    requires forall f | cfg.Enabled(f) :: n'.Of(f).TableOf(NARROW_TABLE) == n.Of(f).TableOf(NARROW_TABLE)
                                          && n'.Of(f).TableOf(WIDE_TABLE) == n.Of(f).TableOf(WIDE_TABLE)
    ensures Holds(n', cfg, es)
  {
    forall f | cfg.Enabled(f)
      ensures Classified(n'.Of(f), cfg.Priv(f), Width(f)) && Registered(n'.Of(f)) == RoutesOf(es, f)
    {
    }
  }

  lemma {:induction false} AllDevsFree(cfg: Config, h: Hash, l: seq<GWNets>)
    ensures forall i | 0 <= i < |AllEntries(cfg, h, l)| :: AllEntries(cfg, h, l)[i].dev !in FIXED_NAMES
  {
    forall i | 0 <= i < |AllEntries(cfg, h, l)|
      ensures AllEntries(cfg, h, l)[i].dev !in FIXED_NAMES
    {
      EntryDevs(cfg, h, l, i);
      var g :| g in l && AllEntries(cfg, h, l)[i].dev == FouName(h, g.gateway);
      FouNameNotFixed(h, g.gateway);
    }
  }

  /** Creating a tunnel leaves the client's rules and routes as they are. */
  lemma {:induction false} ReadyAcrossPeer(cfg: Config, h: Hash, n: Net, n': Net, l: seq<GWNets>, a: IP)
    requires Ready(cfg, h, n, l) && DevicesOnly(WithTunnel(h, n, a), n')
    ensures Ready(cfg, h, n', l)
  {
    AllDevsFree(cfg, h, l);
    forall f | cfg.Enabled(f)
      ensures n'.Of(f).TableOf(NARROW_TABLE) == n.Of(f).TableOf(NARROW_TABLE)
      ensures n'.Of(f).TableOf(WIDE_TABLE) == n.Of(f).TableOf(WIDE_TABLE)
    {
      HeldDevices(n, cfg, AllEntries(cfg, h, l), f);
    }
    HeldAcross(n, n', cfg, AllEntries(cfg, h, l));
  }

  /** Without collisions, every gateway handled so far has a link that leads to it. */
  ghost predicate Sound(cfg: Config, h: Hash, n: Net, used: set<IP>, l: seq<GWNets>) {
    TrueNames(h, n, used) && Live(cfg, h, n, l)
  }

  lemma {:induction false} SoundAcrossPeer(cfg: Config, h: Hash, n: Net, n': Net, used: set<IP>, l: seq<GWNets>, g: GWNets)
    requires NoCollision(h, used) && g.gateway in used && GatewaySet(l) <= used
    requires Sound(cfg, h, n, used, l)
    requires PeerAdded(h, n, n', g.gateway, false) && FouName(h, g.gateway) in n'.links
    ensures Sound(cfg, h, n', used, l + [g])
  {
    var name := FouName(h, g.gateway);
    forall b | b in used
      ensures FouName(h, b) in n.links ==> FouName(h, b) in n'.links
      ensures FouName(h, b) in n'.links ==> n'.links[FouName(h, b)] == Tunnel(b)
    {
      FouNameNotFixed(h, b);
      FouNameInjective(h, b, g.gateway);
    }
    forall x | x in l + [g] && cfg.Enabled(x.gateway.family)
      ensures FouName(h, x.gateway) in n'.links && n'.links[FouName(h, x.gateway)] == Tunnel(x.gateway)
    {
      assert x in l ==> x.gateway in GatewaySet(l);
    }
  }

  lemma {:induction false} EmptyIsReady(cfg: Config, h: Hash, n: Net)
    requires cfg.WithinBound()
    ensures Ready(cfg, h, Initialised(n, cfg), [])
  {
    var n' := Initialised(n, cfg);
    CanonicalKeepsOutside(n.v4.rules, LinkLocal(V4), cfg.v4priv);
    CanonicalKeepsOutside(n.v6.rules, LinkLocal(V6), cfg.v6priv);
    assert AllEntries(cfg, h, []) == [];
    forall f | cfg.Enabled(f)
      ensures Classified(n'.Of(f), cfg.Priv(f), Width(f)) && Registered(n'.Of(f)) == RoutesOf([], f)
    {
    }
  }

  lemma {:induction false} EntriesAppend(cfg: Config, h: Hash, l: seq<GWNets>, g: GWNets)
    ensures AllEntries(cfg, h, l + [g])
         == AllEntries(cfg, h, l)
            + if cfg.Enabled(g.gateway.family) then Usable(cfg, FouName(h, g.gateway), g.networks) else []
  {
  }

  /** A gateway of a family the pod lacks adds nothing. */
  lemma {:induction false} SkipGateway(cfg: Config, h: Hash, n: Net, used: set<IP>, l: seq<GWNets>, g: GWNets)
    requires !cfg.Enabled(g.gateway.family)
    ensures Ready(cfg, h, n, l) ==> Ready(cfg, h, n, l + [g])
    ensures Sound(cfg, h, n, used, l) ==> Sound(cfg, h, n, used, l + [g])
  {
    EntriesAppend(cfg, h, l, g);
    assert AllEntries(cfg, h, l) + [] == AllEntries(cfg, h, l);
  }

  /** The first destinations of a gateway. */
  function Cut(g: GWNets, done: nat): GWNets
    requires done <= |g.networks|
  {
    GWNets(g.gateway, g.networks[..done])
  }

  lemma {:induction false} CutEntries(cfg: Config, h: Hash, l: seq<GWNets>, g: GWNets)
    ensures AllEntries(cfg, h, l + [Cut(g, 0)]) == AllEntries(cfg, h, l)
    ensures Cut(g, |g.networks|) == g
  {
    EntriesAppend(cfg, h, l, Cut(g, 0));
    assert AllEntries(cfg, h, l) + [] == AllEntries(cfg, h, l);
    assert g.networks[..|g.networks|] == g.networks;
  }

  /** AddPeer, whatever its outcome, leaves the client's rules and routes as they are. */
  lemma {:induction false} ReadyAfterPeer(cfg: Config, h: Hash, n: Net, n': Net, l: seq<GWNets>, g: GWNets)
    requires Ready(cfg, h, n, l)
    requires n' == n || DevicesOnly(WithTunnel(h, n, g.gateway), n')
    ensures Ready(cfg, h, n', l) && Ready(cfg, h, n', l + [Cut(g, 0)])
  {
    if n' != n {
      ReadyAcrossPeer(cfg, h, n, n', l, g.gateway);
    }
    CutEntries(cfg, h, l, g);
  }

  lemma {:induction false} ReadyAfterRoutes(
    cfg: Config, h: Hash, n: Net, n': Net, l: seq<GWNets>, g: GWNets, done: nat)
    requires Ready(cfg, h, n, l) && cfg.Enabled(g.gateway.family)
    requires Added(n, n', cfg, FouName(h, g.gateway), g.networks, done)
    ensures Ready(cfg, h, n', l + [Cut(g, done)])
    ensures done < |g.networks| && !Free(n', cfg, g.networks[done]) ==> !DistinctNets(AllEntries(cfg, h, l + [g]))
  {
    EntriesAppend(cfg, h, l, Cut(g, done));
    EntriesAppend(cfg, h, l, g);
    AddedHolds(n, n', cfg, FouName(h, g.gateway), g.networks, done, AllEntries(cfg, h, l));
    if done < |g.networks| && !Free(n', cfg, g.networks[done]) {
      RefusedRepeats(n, n', cfg, FouName(h, g.gateway), g.networks, done, AllEntries(cfg, h, l));
    }
    AddedOnlyRoutes(n, n', cfg, FouName(h, g.gateway), g.networks, done);
  }

  /** One gateway: its tunnel, then its destinations. `l` are the gateways handled before. On every path they
      stay connected, the rules stay canonical and the rest is kept; `done` destinations of this gateway are
      routed as well. */
  method ConnectGateway(host: Host, ft: FouTunnel, cl: NatClient, g: GWNets, ghost l: seq<GWNets>, ghost used: set<IP>)
    returns (err: bool, ghost done: nat)
    requires host.Valid() && ft.local4 == cl.cfg.ipv4 && ft.local6 == cl.cfg.ipv6
    requires Ready(cl.cfg, ft.hash, host.net, l)
    requires g.gateway in used && GatewaySet(l) <= used
    modifies host`net, host`faults
    ensures host.Valid() && old(host.faults) <= host.faults && Kept(cl.cfg, old(host.net), host.net)
    ensures done <= |g.networks| && Ready(cl.cfg, ft.hash, host.net, l + [Cut(g, done)])
    ensures !err ==> Cut(g, done) == g
    ensures !err && NoCollision(ft.hash, used) && Sound(cl.cfg, ft.hash, old(host.net), used, l) ==>
              Sound(cl.cfg, ft.hash, host.net, used, l + [g])
    ensures !err && host.faults == old(host.faults) ==> PeerDone(cl.cfg, ft.hash, old(host.net), host.net, g.gateway)
    ensures err && host.faults == old(host.faults) ==>
              || !DistinctNets(AllEntries(cl.cfg, ft.hash, l + [g]))
              || (cl.cfg.Enabled(g.gateway.family) && PeerClash(ft.hash, old(host.net), g.gateway))
  {
    ghost var n0, h := host.net, ft.hash;
    CutEntries(cl.cfg, h, l, g);
    var e, link := ft.AddPeer(host, g.gateway);
    PeerOutcome(cl.cfg, h, n0, host.net, g.gateway, e, host.faults == old(host.faults));
    if e.FamilyMismatch? {
      SkipGateway(cl.cfg, h, n0, used, l, g);
      return false, |g.networks|;
    }
    ghost var n1 := host.net;
    ReadyAfterPeer(cl.cfg, h, n0, n1, l, g);
    if !e.PeerOk? {
      return true, 0;
    }
    if NoCollision(h, used) && Sound(cl.cfg, h, n0, used, l) {
      SoundAcrossPeer(cl.cfg, h, n0, n1, used, l, g);
    }
    err, done := cl.AddEgress(host, link, g.networks);
    ReadyAfterRoutes(cl.cfg, h, n1, host.net, l, g, done);
    RoutesKeep(cl.cfg, h, n0, n1, host.net, g.gateway);
  }

  /** Some gateways are connected and the rest is kept. `sound` says that the names are without collisions and true at
      the start, `clean` that there was no kernel fault. */
  ghost predicate Connected(
    cfg: Config, h: Hash, n0: Net, n: Net, l: seq<GWNets>, used: set<IP>, sound: bool, clean: bool)
  {
    && Kept(cfg, n0, n) && Ready(cfg, h, n, l)
    && (sound ==> Sound(cfg, h, n, used, l))
    && (clean ==> PeersDone(cfg, h, n0, n, l))
  }

  lemma {:induction false} NothingConnected(cfg: Config, h: Hash, n: Net, used: set<IP>, sound: bool)
    requires Ready(cfg, h, n, []) && (sound ==> TrueNames(h, n, used))
    ensures Connected(cfg, h, n, n, [], used, sound, true)
  {
    assert Peers(cfg, []) == [];
    KeptRefl(cfg, n);
  }

  lemma {:induction false} ConnectedStep(
    cfg: Config, h: Hash, n0: Net, n1: Net, n2: Net, l: seq<GWNets>, g: GWNets, used: set<IP>, sound: bool,
    clean1: bool, clean2: bool)
    requires Connected(cfg, h, n0, n1, l, used, sound, clean1) && Kept(cfg, n1, n2) && Ready(cfg, h, n2, l + [g])
    requires sound ==> Sound(cfg, h, n2, used, l + [g])
    requires clean2 ==> clean1 && PeerDone(cfg, h, n1, n2, g.gateway)
    ensures Connected(cfg, h, n0, n2, l + [g], used, sound, clean2)
  {
    KeptTrans(cfg, n0, n1, n2);
    if clean2 {
      PeersDoneStep(cfg, h, n0, n1, n2, l, g);
    }
  }

  /** A failure without faults at one gateway is a repetition or a clash of the whole list. */
  lemma {:induction false} ConnectFails(cfg: Config, h: Hash, n0: Net, n1: Net, l: seq<GWNets>, i: nat)
    requires i < |l| && PeersDone(cfg, h, n0, n1, l[..i])
    requires || !DistinctNets(AllEntries(cfg, h, l[..i] + [l[i]]))
             || (cfg.Enabled(l[i].gateway.family) && PeerClash(h, n1, l[i].gateway))
    ensures !DistinctNets(AllEntries(cfg, h, l)) || Clashing(cfg, h, n0, l)
  {
    GatewayStep(l, i);
    if cfg.Enabled(l[i].gateway.family) && PeerClash(h, n1, l[i].gateway) {
      ClashFromStart(cfg, h, n0, n1, l, i);
    } else {
      RepeatedStays(cfg, h, l, i + 1);
    }
  }

  /** The next gateway. */
  method ConnectNext(host: Host, ft: FouTunnel, cl: NatClient, g: GWNets,
                     ghost n0: Net, ghost l: seq<GWNets>, ghost i: nat, ghost sound: bool, ghost clean: bool)
    returns (err: bool, ghost done: nat)
    requires host.Valid() && ft.local4 == cl.cfg.ipv4 && ft.local6 == cl.cfg.ipv6 && i < |l| && g == l[i]
    requires sound ==> NoCollision(ft.hash, GatewaySet(l))
    requires Connected(cl.cfg, ft.hash, n0, host.net, l[..i], GatewaySet(l), sound, clean)
    modifies host`net, host`faults
    ensures host.Valid() && old(host.faults) <= host.faults && Kept(cl.cfg, n0, host.net)
    ensures !err ==> Connected(cl.cfg, ft.hash, n0, host.net, l[..i + 1], GatewaySet(l), sound,
                               clean && host.faults == old(host.faults))
    ensures err ==> done <= |g.networks| && Ready(cl.cfg, ft.hash, host.net, l[..i] + [Cut(g, done)])
    ensures err && clean && host.faults == old(host.faults) ==>
              !DistinctNets(AllEntries(cl.cfg, ft.hash, l)) || Clashing(cl.cfg, ft.hash, n0, l)
  {
    GatewayStep(l, i);
    ghost var n1 := host.net;
    err, done := ConnectGateway(host, ft, cl, g, l[..i], GatewaySet(l));
    if err {
      KeptTrans(cl.cfg, n0, n1, host.net);
      if clean && host.faults == old(host.faults) {
        ConnectFails(cl.cfg, ft.hash, n0, n1, l, i);
      }
      return;
    }
    ConnectedStep(cl.cfg, ft.hash, n0, n1, host.net, l[..i], g, GatewaySet(l), sound, clean,
                  clean && host.faults == old(host.faults));
  }

  /** All gateways, one after another; a failure leaves those before it and a part of the one it stopped at. */
  method ConnectGateways(host: Host, ft: FouTunnel, cl: NatClient, l: seq<GWNets>) returns (err: bool)
    requires host.Valid() && ft.local4 == cl.cfg.ipv4 && ft.local6 == cl.cfg.ipv6
    requires Ready(cl.cfg, ft.hash, host.net, [])
    modifies host`net, host`faults
    ensures host.Valid() && old(host.faults) <= host.faults && Kept(cl.cfg, old(host.net), host.net)
    ensures !err ==> Ready(cl.cfg, ft.hash, host.net, l)
    ensures err ==> exists i, k | 0 <= i < |l| && 0 <= k <= |l[i].networks| ::
                      Ready(cl.cfg, ft.hash, host.net, l[..i] + [Cut(l[i], k)])
    ensures !err && NoCollision(ft.hash, GatewaySet(l)) && TrueNames(ft.hash, old(host.net), GatewaySet(l)) ==>
              Live(cl.cfg, ft.hash, host.net, l)
    ensures !err && host.faults == old(host.faults) ==> PeersDone(cl.cfg, ft.hash, old(host.net), host.net, l)
    ensures err && host.faults == old(host.faults) ==>
              !DistinctNets(AllEntries(cl.cfg, ft.hash, l)) || Clashing(cl.cfg, ft.hash, old(host.net), l)
  {
    ghost var n0, used := host.net, GatewaySet(l);
    ghost var sound := NoCollision(ft.hash, used) && TrueNames(ft.hash, n0, used);
    ghost var done;
    NothingConnected(cl.cfg, ft.hash, n0, used, sound);
    for i := 0 to |l|
      invariant host.Valid() && old(host.faults) <= host.faults
      invariant Connected(cl.cfg, ft.hash, n0, host.net, l[..i], used, sound, host.faults == old(host.faults))
    {
      err, done := ConnectNext(host, ft, cl, l[i], n0, l, i, sound, host.faults == old(host.faults));
      if err {
        return;
      }
    }
    assert l[..|l|] == l;
    err := false;
  }

  /** Initialises the tunnel and the client. */
  method Prepare(host: Host, ft: FouTunnel, cl: NatClient) returns (err: bool)
    requires host.Valid() && cl.cfg.WithinBound()
    modifies host
    ensures host.Valid() && old(host.faults) <= host.faults && Kept(cl.cfg, old(host.net), host.net)
    ensures !err ==> Ready(cl.cfg, ft.hash, host.net, [])
    ensures SameLinks(old(host.net), host.net)
    ensures Stuck(FouSteps(ft.local4, ft.local6), Boot(old(host.setup), FOU_DUMMY in old(host.net).links)) ==> err
    ensures err && host.faults == old(host.faults) ==>
              Stuck(FouSteps(ft.local4, ft.local6), Boot(old(host.setup), FOU_DUMMY in old(host.net).links))
  {
    err := ft.Init(host);
    AttemptVsStuck(FouSteps(ft.local4, ft.local6), Boot(old(host.setup), FOU_DUMMY in old(host.net).links),
                   Boot(host.setup, FOU_DUMMY in host.net.links), err, host.faults == old(host.faults));
    MarkerKeeps(cl.cfg, old(host.net), host.net);
    if err {
      return;
    }
    ghost var n1 := host.net;
    EmptyIsReady(cl.cfg, ft.hash, n1);
    err := cl.Init(host);
    ClientKeeps(cl.cfg, n1, host.net);
    KeptTrans(cl.cfg, old(host.net), n1, host.net);
  }

  /** The links are the same up to the marker. */
  predicate SameLinks(a: Net, b: Net) {
    b.links == a.links || (FOU_DUMMY !in a.links && b.links == a.links[FOU_DUMMY := Dummy])
  }

  lemma {:induction false} MarkerUnseen(cfg: Config, h: Hash, a: Net, b: Net, l: seq<GWNets>)
    requires SameLinks(a, b)
    ensures forall used: set<IP> :: TrueNames(h, a, used) ==> TrueNames(h, b, used)
    ensures Clashing(cfg, h, b, l) <==> Clashing(cfg, h, a, l)
    ensures AfterPeers(h, Devs(b), Peers(cfg, l)).recv == AfterPeers(h, Devs(a), Peers(cfg, l)).recv
  {
    forall x: IP
      ensures FouName(h, x) in b.links <==> FouName(h, x) in a.links
      ensures FouName(h, x) in a.links ==> b.links[FouName(h, x)] == a.links[FouName(h, x)]
      ensures PeerClash(h, b, x) <==> PeerClash(h, a, x)
    {
      FouNameNotFixed(h, x);
      MarkerIsNoDevice(a, b);
    }
    MarkerIsNoDevice(a, b);
    var todo := Peers(cfg, l);
    forall x | x in todo
      ensures FouName(h, x) in Devs(b).up <==> FouName(h, x) in Devs(a).up
    {
      FouNameNotFixed(h, x);
    }
    assert Seen(h, Devs(b), todo) == Seen(h, Devs(a), todo);
    SameSeenSameRecv(h, Devs(b), Devs(a), todo);
  }

  lemma {:induction false} MarkerIsNoDevice(a: Net, b: Net)
    requires SameLinks(a, b)
    ensures Receivers(b) == Receivers(a)
    ensures forall f :: Clash(b, f) <==> Clash(a, f)
  {
  }

  /** Sets up tunnels and routes for the gateways of a pod. A success leaves the rules canonical and the
      tables holding exactly the gateways' destinations, which are then pairwise distinct. Every path keeps what
      is neither the client's nor a fixed device. Without a kernel fault it fails exactly for a repeated
      destination, a tunnel port left open by an earlier, unfinished set-up, or a fallback device that cannot be
      renamed, and a success leaves the receive device of the gateway whose link was created last. */
  method SetupEgressGW(host: Host, ipv4: bool, ipv6: bool, hash: Hash, l: seq<GWNets>) returns (err: bool)
    requires host.Valid()
    modifies host
    ensures host.Valid() && old(host.faults) <= host.faults
    ensures Kept(AgentConfig(ipv4, ipv6), old(host.net), host.net)
    ensures !err ==> Ready(AgentConfig(ipv4, ipv6), hash, host.net, l)
    ensures !err && NoCollision(hash, GatewaySet(l)) && TrueNames(hash, old(host.net), GatewaySet(l)) ==>
              Live(AgentConfig(ipv4, ipv6), hash, host.net, l)
    ensures !err && host.faults == old(host.faults) ==>
              Receivers(host.net) == ReceiversAfter(AgentConfig(ipv4, ipv6), hash, old(host.net), l)
    ensures host.faults == old(host.faults) ==>
              (err <==> || !DistinctNets(AllEntries(AgentConfig(ipv4, ipv6), hash, l))
                        || Stuck(FouSteps(ipv4, ipv6), Boot(old(host.setup), FOU_DUMMY in old(host.net).links))
                        || Clashing(AgentConfig(ipv4, ipv6), hash, old(host.net), l))
  {
    var ft := new FouTunnel(ipv4, ipv6, hash);
    var cl := new NatClient(ipv4, ipv6, []);
    assert cl.cfg.Priv(V4) == V4_PRIVATE && cl.cfg.Priv(V6) == V6_PRIVATE;
    assert cl.cfg == AgentConfig(ipv4, ipv6);
    ghost var n0 := host.net;
    err := Prepare(host, ft, cl);
    if err {
      return;
    }
    ghost var n1 := host.net;
    MarkerUnseen(cl.cfg, hash, n0, n1, l);
    err := ConnectGateways(host, ft, cl, l);
    KeptTrans(cl.cfg, n0, n1, host.net);
  }

  /** The receive devices that adding the gateways in this order leaves. */
  function ReceiversAfter(cfg: Config, h: Hash, n: Net, l: seq<GWNets>): set<Family> {
    AfterPeers(h, Devs(n), Peers(cfg, l)).recv
  }

  lemma {:induction false} PeerOutcome(cfg: Config, h: Hash, n: Net, n': Net, a: IP, e: PeerErr, clean: bool)
    requires e.FamilyMismatch? <==> !cfg.Enabled(a.family)
    requires e.FamilyMismatch? ==> n' == n
    requires e.PeerFailed? ==> PeerCut(h, n, n', a)
    requires e.PeerOk? ==> PeerAdded(h, n, n', a, clean)
    requires e.PeerOk? && clean ==> !PeerClash(h, n, a) && forall f :: Clash(n', f) <==> Clash(n, f)
    ensures PeerCut(h, n, n', a) && Kept(cfg, n, n')
    ensures !e.PeerFailed? && clean ==> PeerDone(cfg, h, n, n', a)
  {
    PeerKeeps(cfg, h, n, n', a);
    if e.PeerOk? {
      PeerAddedDevs(h, n, n', a, clean);
    }
  }

  /** Registering destinations keeps the rest and touches no link. */
  lemma {:induction false} RoutesKeep(cfg: Config, h: Hash, n0: Net, n1: Net, n2: Net, a: IP)
    requires Kept(cfg, n0, n1) && OnlyRoutesAdded(n1, n2, cfg)
    ensures Kept(cfg, n0, n2)
    ensures PeerDone(cfg, h, n0, n1, a) ==> PeerDone(cfg, h, n0, n2, a)
  {
    ClientKeeps(cfg, n1, n2);
    KeptTrans(cfg, n0, n1, n2);
    assert Devs(n2) == Devs(n1) && forall f :: Clash(n2, f) <==> Clash(n1, f);
  }

  /** What connecting gateways may do to a namespace: a success connects every gateway, every outcome keeps the
      rest, and without kernel faults it fails exactly for a repeated destination, an open tunnel port or a
      fallback device in the way. */
  ghost predicate SetupOutcome(cfg: Config, h: Hash, l: seq<GWNets>, n0: Net, b: Boot, n: Net, err: bool, clean: bool) {
    && SameFamily(l) && Kept(cfg, n0, n)
    && (!err ==> Ready(cfg, h, n, l))
    && (!err && NoCollision(h, GatewaySet(l)) && TrueNames(h, n0, GatewaySet(l)) ==> Live(cfg, h, n, l))
    && (!err && clean ==> Receivers(n) == ReceiversAfter(cfg, h, n0, l))
    && (clean ==> (err <==> || !DistinctNets(AllEntries(cfg, h, l)) || Stuck(FouSteps(cfg.ipv4, cfg.ipv6), b)
                            || Clashing(cfg, h, n0, l)))
  }

  /** What adding a pod may do, when the egresses are read in the order `names`: nothing when one of them cannot be
      read or none is usable. */
  ghost predicate AddOutcome(cfg: Config, h: Hash, c: Cluster, names: seq<ObjectKey>,
                             n0: Net, b: Boot, n: Net, err: bool, clean: bool) {
    var l := FlatMap(GatewayFun(c), names);
    if !AllReadable(c, names) then err && n == n0
    else if l == [] then !err && n == n0
    else SetupOutcome(cfg, h, l, n0, b, n, err, clean)
  }

  /** What the agent does for a new pod. */
  method Add(host: Host, pod: Pod, c: Cluster, ipv4: bool, ipv6: bool, hash: Hash)
    returns (err: bool, ghost names: seq<ObjectKey>)
    requires host.Valid()
    modifies host
    ensures host.Valid() && old(host.faults) <= host.faults
    ensures forall o :: multiset(names)[o] == Mentions(pod, o)
    ensures AddOutcome(AgentConfig(ipv4, ipv6), hash, c, names, old(host.net),
                       Boot(old(host.setup), FOU_DUMMY in old(host.net).links),
                       host.net, err, host.faults == old(host.faults))
  {
    var r;
    r, names := GetGWNets(pod, c);
    if r.None? {
      return true, names;
    }
    err := false;
    if r.value != [] {
      err := SetupEgressGW(host, ipv4, ipv6, hash, r.value);
    }
  }

  lemma {:induction false} GatewayStep(l: seq<GWNets>, i: nat)
    requires i < |l|
    ensures l[..i + 1] == l[..i] + [l[i]]
    ensures l[i].gateway in GatewaySet(l) && GatewaySet(l[..i]) <= GatewaySet(l)
  {
  }

  lemma {:induction false} AttemptVsStuck(steps: seq<Setup>, b: Boot, b': Boot, err: bool, clean: bool)
    requires Attempt(steps, b, b', err, clean)
    ensures clean && err ==> Stuck(steps, b)
    ensures Stuck(steps, b) ==> err
  {
  }

  lemma {:induction false} RepeatedStays(cfg: Config, h: Hash, l: seq<GWNets>, i: nat)
    requires i <= |l|
    ensures !DistinctNets(AllEntries(cfg, h, l[..i])) ==> !DistinctNets(AllEntries(cfg, h, l))
  {
    var p, q := AllEntries(cfg, h, l[..i]), AllEntries(cfg, h, l[i..]);
    FlatMapConcat(EntryFun(cfg, h), l[..i], l[i..]);
    assert l == l[..i] + l[i..];
    if !DistinctNets(p) {
      var j, k :| 0 <= j < k < |p| && p[j].net == p[k].net;
      assert (p + q)[j].net == (p + q)[k].net;
    }
  }
}
