/** The NAT client of a pod: clears and installs its rule band and sorts destination subnets into the
    narrow and the wide table. */
module NatClients {
  import opened Cidr
  import opened Kernel
  import opened Routing
  import opened RuleBands

  // ---- configuration and state predicates --------------------------------------------------------

  datatype Config = Config(ipv4: bool, ipv6: bool, v4priv: seq<Bits>, v6priv: seq<Bits>) {
    predicate Enabled(f: Family) {
      if f.V4? then ipv4 else ipv6
    }

    function Priv(f: Family): seq<Bits> {
      if f.V4? then v4priv else v6priv
    }

    predicate WithinBound() {
      |v4priv| <= MAX_PRIVATE && |v6priv| <= MAX_PRIVATE
    }
  }

  /** The part of one family's state that the client does not own. */
  ghost predicate SameOutsideFib(a: Fib, b: Fib) {
    && OutOfBand(a.rules) == OutOfBand(b.rules)
    && forall t | t != NARROW_TABLE && t != WIDE_TABLE :: a.TableOf(t) == b.TableOf(t)
  }

  /** Everything the client does not own is the same in both states. */
  ghost predicate SameOutside(a: Net, b: Net, cfg: Config) {
    && a.links == b.links
    && (if cfg.ipv4 then SameOutsideFib(a.v4, b.v4) else a.v4 == b.v4)
    && (if cfg.ipv6 then SameOutsideFib(a.v6, b.v6) else a.v6 == b.v6)
  }

  function CanonicalFib(fib: Fib, linkLocal: Bits, priv: seq<Bits>): (r: Fib)
    ensures r.TableOf(NARROW_TABLE) == map[] && r.TableOf(WIDE_TABLE) == map[]
    ensures forall t | t != NARROW_TABLE && t != WIDE_TABLE :: r.TableOf(t) == fib.TableOf(t)
  {
    Fib(Canonical(fib.rules, linkLocal, priv), fib.tables).WithTable(NARROW_TABLE, map[]).WithTable(WIDE_TABLE, map[])
  }

  /** The state a successful Init leaves. */
  function Initialised(n: Net, cfg: Config): Net {
    var n4 := if cfg.ipv4 then n.With(V4, CanonicalFib(n.v4, LinkLocal(V4), cfg.v4priv)) else n;
    if cfg.ipv6 then n4.With(V6, CanonicalFib(n.v6, LinkLocal(V6), cfg.v6priv)) else n4
  }

  lemma {:induction false} CanonicalFibDependsOnOutside(a: Fib, b: Fib, linkLocal: Bits, priv: seq<Bits>)
    requires SameOutsideFib(a, b)
    ensures CanonicalFib(a, linkLocal, priv) == CanonicalFib(b, linkLocal, priv)
  {
    FibExt(CanonicalFib(a, linkLocal, priv), CanonicalFib(b, linkLocal, priv));
  }

  /** Init is history independent: two states that agree outside the client's own rules and tables
      become equal, whatever routes, half-installed bands or earlier clients they hold. */
  lemma {:induction false} InitForgetsHistory(a: Net, b: Net, cfg: Config)
    requires SameOutside(a, b, cfg)
    ensures Initialised(a, cfg) == Initialised(b, cfg)
  {
    if cfg.ipv4 {
      CanonicalFibDependsOnOutside(a.v4, b.v4, LinkLocal(V4), cfg.v4priv);
    }
    if cfg.ipv6 {
      CanonicalFibDependsOnOutside(a.v6, b.v6, LinkLocal(V6), cfg.v6priv);
    }
  }

  /** Init leaves everything outside alone; with the lemma above, Init after Init is Init. */
  lemma {:induction false} InitKeepsOutside(n: Net, cfg: Config)
    requires cfg.WithinBound()
    ensures SameOutside(n, Initialised(n, cfg), cfg)
    ensures Initialised(Initialised(n, cfg), cfg) == Initialised(n, cfg)
  {
    CanonicalKeepsOutside(n.v4.rules, LinkLocal(V4), cfg.v4priv);
    CanonicalKeepsOutside(n.v6.rules, LinkLocal(V6), cfg.v6priv);
    InitForgetsHistory(n, Initialised(n, cfg), cfg);
  }

  /** Init, any registrations, Init again: the result is that of the first Init. */
  lemma {:induction false} ReinitIsInit(n: Net, n': Net, cfg: Config)
    requires cfg.WithinBound() && OnlyRoutesAdded(Initialised(n, cfg), n', cfg)
    ensures Initialised(n', cfg) == Initialised(n, cfg)
  {
    InitKeepsOutside(n, cfg);
    InitForgetsHistory(Initialised(n, cfg), n', cfg);
  }

  /** One family is set up: its rules are canonical and every subnet is in the right table. */
  ghost predicate Installed(fib: Fib, linkLocal: Bits, priv: seq<Bits>, width: nat) {
    fib.rules == Canonical(fib.rules, linkLocal, priv) && Classified(fib, priv, width)
  }

  /** What an installed client does with an address: rules before the band first, then one flat
      longest-prefix match over subnets and private networks, then the rules after the band. */
  lemma {:induction false} InstalledRoutesFlat(fib: Fib, linkLocal: Bits, priv: seq<Bits>, a: Bits)
    requires Installed(fib, linkLocal, priv, |a|)
    requires forall n | n in Registered(fib) :: Safe(priv, n, |a|)
    requires !(linkLocal <= a)
    ensures Walk(fib.rules, fib, a)
         == OrElse(Walk(Below(OutOfBand(fib.rules)), fib, a),
                   OrElse(Flat(priv, Registered(fib), a), Walk(Above(OutOfBand(fib.rules)), fib, a)))
  {
    var kept := OutOfBand(fib.rules);
    var band := Band(linkLocal, priv);
    WalkConcat(Below(kept) + band, Above(kept), fib, a);
    WalkConcat(Below(kept), band, fib, a);
    WalkBand(linkLocal, priv, fib, a);
    SafeIsNarrowFirst(priv, fib, a);
    FlatOfTiers(priv, fib.TableOf(NARROW_TABLE), fib.TableOf(WIDE_TABLE), a);
  }

  // ---- subnets to register -----------------------------------------------------------------------

  /** A destination with the device it is routed to. */
  datatype Entry = Entry(net: RawSubnet, dev: string)

  /** The routes of family `f` that registering the entries one after another adds. */
  function RoutesOf(es: seq<Entry>, f: Family): (t: Table)
    ensures forall n :: n in t <==> exists i | 0 <= i < |es| :: es[i].net == Net4or6(f, n)
  {
    if es == [] then map[]
    else
      var k := |es| - 1;
      var t := RoutesOf(es[..k], f);
      if es[k].net.family == f then t[es[k].net.bits := es[k].dev] else t
  }

  ghost predicate DistinctNets(es: seq<Entry>) {
    forall i, j | 0 <= i < j < |es| :: es[i].net != es[j].net
  }

  /** `n` holds exactly the entries, in the tables their base addresses select. */
  ghost predicate Holds(n: Net, cfg: Config, es: seq<Entry>) {
    && DistinctNets(es)
    && (forall i | 0 <= i < |es| :: cfg.Enabled(es[i].net.family))
    && forall f | cfg.Enabled(f) ::
         && Classified(n.Of(f), cfg.Priv(f), Width(f))
         && Registered(n.Of(f)) == RoutesOf(es, f)
  }

  lemma {:induction false} RoutesOfAppend(es: seq<Entry>, e: Entry, f: Family)
    ensures RoutesOf(es + [e], f)
         == if e.net.family == f then RoutesOf(es, f)[e.net.bits := e.dev] else RoutesOf(es, f)
  {
  }

  /** The table the client chooses for a subnet. */
  function TableFor(priv: seq<Bits>, n: Bits, width: nat): int
    requires |n| <= width
  {
    if Narrow(priv, n, width) then NARROW_TABLE else WIDE_TABLE
  }

  lemma TiersExtend(narrow: Table, wide: Table, b: Bits, dev: string)
    ensures narrow + wide[b := dev] == (narrow + wide)[b := dev]
    ensures b !in wide ==> narrow[b := dev] + wide == (narrow + wide)[b := dev]
  {
  }

  /** The state after one route has been added to the table the client chose. */
  function WithSubnet(fib: Fib, priv: seq<Bits>, width: nat, b: Bits, dev: string): (r: Fib)
    requires |b| <= width
    ensures r.rules == fib.rules
  {
    var t := TableFor(priv, b, width);
    fib.WithTable(t, fib.TableOf(t)[b := dev])
  }

  /** The state after one destination has been registered; one of a family the pod lacks changes nothing. */
  function WithRoute(n: Net, cfg: Config, dev: string, s: Subnet): Net {
    var f := s.family;
    if cfg.Enabled(f) then n.With(f, WithSubnet(n.Of(f), cfg.Priv(f), Width(f), s.bits, dev)) else n
  }

  /** The table chosen for the destination does not have it yet. */
  predicate Free(n: Net, cfg: Config, s: Subnet) {
    cfg.Enabled(s.family) ==>
      s.bits !in n.Of(s.family).TableOf(TableFor(cfg.Priv(s.family), s.bits, Width(s.family)))
  }

  lemma KnownIffInTable(fib: Fib, priv: seq<Bits>, width: nat, b: Bits)
    requires Classified(fib, priv, width) && |b| <= width
    ensures b in fib.TableOf(TableFor(priv, b, width)) <==> b in Registered(fib)
  {
  }

  lemma ClassifiedExtends(fib: Fib, priv: seq<Bits>, width: nat, b: Bits, dev: string)
    requires Classified(fib, priv, width) && |b| <= width
    ensures Classified(WithSubnet(fib, priv, width, b, dev), priv, width)
  {
  }

  lemma {:induction false} RegisteredExtends(fib: Fib, priv: seq<Bits>, width: nat, b: Bits, dev: string)
    requires Classified(fib, priv, width) && |b| <= width
    ensures Registered(WithSubnet(fib, priv, width, b, dev)) == Registered(fib)[b := dev]
  {
    TiersExtend(fib.TableOf(NARROW_TABLE), fib.TableOf(WIDE_TABLE), b, dev);
    if Narrow(priv, b, width) {
      assert b !in fib.TableOf(WIDE_TABLE);
    }
  }

  lemma DistinctNetsAppend(es: seq<Entry>, e: Entry)
    requires DistinctNets(es) && forall i | 0 <= i < |es| :: es[i].net != e.net
    ensures DistinctNets(es + [e])
  {
  }

  /** A subnet is refused exactly when it is held already; otherwise it joins the held entries. */
  lemma {:induction false} HoldsExtends(n: Net, cfg: Config, es: seq<Entry>, e: Entry)
    requires Holds(n, cfg, es) && cfg.Enabled(e.net.family) && |e.net.bits| <= Width(e.net.family)
    ensures var f, b := e.net.family, e.net.bits;
            && (b in n.Of(f).TableOf(TableFor(cfg.Priv(f), b, Width(f))) <==> exists i | 0 <= i < |es| :: es[i].net == e.net)
            && (b !in n.Of(f).TableOf(TableFor(cfg.Priv(f), b, Width(f))) ==>
                  Holds(n.With(f, WithSubnet(n.Of(f), cfg.Priv(f), Width(f), b, e.dev)), cfg, es + [e]))
  {
    var f, b := e.net.family, e.net.bits;
    KnownIffInTable(n.Of(f), cfg.Priv(f), Width(f), b);
    assert e.net == Net4or6(f, b);
    assert b in Registered(n.Of(f)) <==> exists i | 0 <= i < |es| :: es[i].net == e.net;
    if b !in Registered(n.Of(f)) {
      HoldsExtended(n, cfg, es, e);
    }
  }

  lemma {:induction false} HoldsExtended(n: Net, cfg: Config, es: seq<Entry>, e: Entry)
    requires Holds(n, cfg, es) && cfg.Enabled(e.net.family) && |e.net.bits| <= Width(e.net.family)
    requires forall i | 0 <= i < |es| :: es[i].net != e.net
    ensures var f, b := e.net.family, e.net.bits;
            Holds(n.With(f, WithSubnet(n.Of(f), cfg.Priv(f), Width(f), b, e.dev)), cfg, es + [e])
  {
    var f, b := e.net.family, e.net.bits;
    var n' := n.With(f, WithSubnet(n.Of(f), cfg.Priv(f), Width(f), b, e.dev));
    DistinctNetsAppend(es, e);
    forall g | cfg.Enabled(g)
      ensures Classified(n'.Of(g), cfg.Priv(g), Width(g)) && Registered(n'.Of(g)) == RoutesOf(es + [e], g)
    {
      RoutesOfAppend(es, e, g);
      if g == f {
        ClassifiedExtends(n.Of(f), cfg.Priv(f), Width(f), b, e.dev);
        RegisteredExtends(n.Of(f), cfg.Priv(f), Width(f), b, e.dev);
      } else {
        assert n'.Of(g) == n.Of(g);
      }
    }
  }

  // ---- the client object -------------------------------------------------------------------------

  function NetsOf(nets: seq<Subnet>, f: Family): seq<Bits> {
    if nets == [] then []
    else
      var k := |nets| - 1;
      NetsOf(nets[..k], f) + (if nets[k].family == f then [nets[k].bits] else [])
  }

  /** The networks of a family, in order: nothing else, nothing lost, nothing repeated. */
  lemma {:induction false} NetsOfSplits(x: seq<Subnet>, y: seq<Subnet>, f: Family)
    ensures NetsOf(x + y, f) == NetsOf(x, f) + NetsOf(y, f)
    ensures |x| == 1 ==> NetsOf(x, f) == if x[0].family == f then [x[0].bits] else []
  {
    if y == [] {
      assert x + y == x;
    } else {
      var k := |y| - 1;
      assert (x + y)[..|x + y| - 1] == x + y[..k];
      NetsOfSplits(x, y[..k], f);
    }
  }

  class NatClient {
    const cfg: Config

    /** Pod and node networks replace the built-in private lists when any are given. */
    constructor (ipv4: bool, ipv6: bool, podNodeNet: seq<Subnet>)
      ensures cfg.ipv4 == ipv4 && cfg.ipv6 == ipv6
      ensures forall f :: cfg.Priv(f) == if podNodeNet == [] then BuiltinPrivate(f) else NetsOf(podNodeNet, f)
    {
      var v4priv, v6priv: seq<Bits> := [], [];
      if |podNodeNet| > 0 {
        for i := 0 to |podNodeNet|
          invariant v4priv == NetsOf(podNodeNet[..i], V4) && v6priv == NetsOf(podNodeNet[..i], V6)
        {
          assert podNodeNet[..i + 1][..i] == podNodeNet[..i];
          if podNodeNet[i].family.V4? {
            v4priv := v4priv + [podNodeNet[i].bits];
          } else {
            v6priv := v6priv + [podNodeNet[i].bits];
          }
        }
        assert podNodeNet[..|podNodeNet|] == podNodeNet;
      } else {
        v4priv, v6priv := V4_PRIVATE, V6_PRIVATE;
      }
      cfg := Config(ipv4, ipv6, v4priv, v6priv);
    }

    /** One turn of the clearing loop. */
    method ClearRule(host: Host, f: Family, r: Rule, ghost n0: Net, ghost rs: seq<Rule>, ghost i: nat)
      returns (err: bool)
      requires host.Valid() && RulesOk(rs) && i < |rs| && r == rs[i] && Clearing(n0, host.net, f, rs, i)
      modifies host`net, host`faults
      ensures host.Valid() && old(host.faults) <= host.faults
      ensures err <==> host.faults != old(host.faults)
      ensures err ==> host.net == old(host.net)
      ensures !err ==> Clearing(n0, host.net, f, rs, i + 1)
    {
      ClearTurn(rs, i);
      if r.prio < BAND_LOW || r.prio > BAND_HIGH {
        return false;
      }
      var e := host.RuleDel(f, r);
      err := !e.Ok?;
    }

    method ClearRules(host: Host, f: Family) returns (err: bool)
      requires host.Valid()
      modifies host`net, host`faults
      ensures host.Valid() && old(host.faults) <= host.faults
      ensures err <==> host.faults != old(host.faults)
      ensures host.net == old(host.net).With(f, old(host.net).Of(f).(rules := host.net.Of(f).rules))
      ensures OutOfBand(host.net.Of(f).rules) == OutOfBand(old(host.net).Of(f).rules)
      ensures !err ==> host.net.Of(f).rules == OutOfBand(old(host.net).Of(f).rules)
      ensures !err ==> forall r :: r in host.net.Of(f).rules
                                   <==> r in old(host.net).Of(f).rules && (r.prio < 1800 || r.prio > 2100)
    {
      var e, rs := host.RuleList(f);
      if !e.Ok? {
        return true;
      }
      ghost var n0 := host.net;
      ClearingStarts(n0, f);
      for i := 0 to |rs|
        invariant host.Valid() && host.faults == old(host.faults)
        invariant Clearing(n0, host.net, f, rs, i)
      {
        err := ClearRule(host, f, rs[i], n0, rs, i);
        if err {
          ClearingStops(n0, host.net, f, i);
          return;
        }
      }
      ClearingStops(n0, host.net, f, |rs|);
      OutOfBandMembers(rs);
      err := false;
    }

    method ClearTable(host: Host, f: Family, t: int) returns (err: bool)
      requires host.Valid()
      modifies host`net, host`faults
      ensures host.Valid() && old(host.faults) <= host.faults
      ensures err <==> host.faults != old(host.faults)
      ensures host.net == old(host.net).With(f, old(host.net).Of(f).WithTable(t, host.net.Of(f).TableOf(t)))
      ensures !err ==> host.net.Of(f).TableOf(t) == map[]
    {
      ghost var fib := host.net.Of(f);
      var e, ds := host.RouteList(f, t);
      WithSameTable(fib, t);
      if !e.Ok? {
        return true;
      }
      for i := 0 to |ds|
        invariant host.Valid() && host.faults == old(host.faults)
        invariant host.net == old(host.net).With(f, fib.WithTable(t, host.net.Of(f).TableOf(t)))
        invariant forall d :: d in host.net.Of(f).TableOf(t) <==> d in fib.TableOf(t) && d !in ds[..i]
      {
        ghost var before := host.net.Of(f).TableOf(t);
        WithTableTwice(fib, t, before, before - {ds[i]});
        e := host.RouteDel(f, t, ds[i]);
        if !e.Ok? {
          return true;
        }
        assert ds[..i + 1] == ds[..i] + [ds[i]];
      }
      assert host.net.Of(f).TableOf(t) == map[];
      err := false;
    }

    /** Removes the client's rules and routes of one family. */
    method Clear(host: Host, f: Family) returns (err: bool)
      requires host.Valid()
      modifies host`net, host`faults
      ensures host.Valid() && old(host.faults) <= host.faults
      ensures err <==> host.faults != old(host.faults)
      ensures host.net == old(host.net).With(f, host.net.Of(f))
      ensures SameOutsideFib(old(host.net).Of(f), host.net.Of(f))
      ensures !err ==> Cleared(old(host.net).Of(f), host.net.Of(f))
    {
      err := ClearRules(host, f);
      if err {
        return;
      }
      err := ClearTable(host, f, NARROW_TABLE);
      if err {
        return;
      }
      err := ClearTable(host, f, WIDE_TABLE);
    }

    /** Adds the next rule of the band. */
    method AddRule(host: Host, f: Family, r: Rule, ghost n0: Net, ghost band: seq<Rule>, ghost done: nat)
      returns (err: bool)
      requires host.Valid() && done < |band| && r == band[done]
      requires Progress(n0, host.net, f, band, done)
      modifies host`net, host`faults
      ensures host.Valid() && old(host.faults) <= host.faults
      ensures err ==> host.net == old(host.net)
      ensures err && host.faults == old(host.faults) ==> r in Install(n0.Of(f).rules, band[..done])
      ensures !err ==> Progress(n0, host.net, f, band, done + 1) && host.faults == old(host.faults)
    {
      InstallStep(n0.Of(f).rules, band, done);
      var e := host.RuleAdd(f, r);
      err := !e.Ok?;
    }

    /** Adds the rules of the private networks, which follow the first two rules of the band. */
    method InstallLocals(host: Host, f: Family, ghost n0: Net, ghost band: seq<Rule>) returns (err: bool, ghost done: nat)
      requires host.Valid() && IsBand(band, LinkLocal(f), cfg.Priv(f)) && Progress(n0, host.net, f, band, 2)
      modifies host`net, host`faults
      ensures host.Valid() && old(host.faults) <= host.faults
      ensures Progress(n0, host.net, f, band, done) && done <= |band| - 1 && (!err <==> done == |band| - 1)
      ensures !err ==> host.faults == old(host.faults)
      ensures err && host.faults == old(host.faults) ==> band[done] in Install(n0.Of(f).rules, band[..done])
    {
      var priv := cfg.Priv(f);
      done := 2;
      for i := 0 to |priv|
        invariant host.Valid() && host.faults == old(host.faults) && done == i + 2
        invariant Progress(n0, host.net, f, band, done)
      {
        err := AddRule(host, f, Rule(LOCAL_PRIO_BASE + i, MAIN_TABLE, priv[i]), n0, band, done);
        if err {
          return;
        }
        done := done + 1;
      }
      err := false;
    }

    /** Adds the rules of one family after its band has been cleared; `done` of them are in place at the end. */
    method InstallBand(host: Host, f: Family, ghost band: seq<Rule>) returns (err: bool, ghost done: nat)
      requires host.Valid() && IsBand(band, LinkLocal(f), cfg.Priv(f))
      modifies host`net, host`faults
      ensures host.Valid() && old(host.faults) <= host.faults
      ensures Progress(old(host.net), host.net, f, band, done) && (!err <==> done == |band|)
      ensures err && host.faults == old(host.faults) ==> band[done] in Install(old(host.net).Of(f).rules, band[..done])
    {
      ghost var n0 := host.net;
      assert band[..0] == [];
      done := 0;
      err := AddRule(host, f, Rule(LINK_LOCAL_PRIO, MAIN_TABLE, LinkLocal(f)), n0, band, 0);
      if err {
        return;
      }
      err := AddRule(host, f, Rule(NARROW_PRIO, NARROW_TABLE, []), n0, band, 1);
      if err {
        done := 1;
        return;
      }
      err, done := InstallLocals(host, f, n0, band);
      if err {
        return;
      }
      err := AddRule(host, f, Rule(WIDE_PRIO, WIDE_TABLE, []), n0, band, done);
      if !err {
        done := done + 1;
      }
    }

    /** The part of Init for one family. */
    method InitFamily(host: Host, f: Family) returns (err: bool)
      requires host.Valid()
      modifies host`net, host`faults
      ensures host.Valid() && old(host.faults) <= host.faults
      ensures host.net == old(host.net).With(f, host.net.Of(f))
      ensures !err ==> InitialisedFib(old(host.net).Of(f), host.net.Of(f), LinkLocal(f), cfg.Priv(f))
      ensures |cfg.Priv(f)| <= MAX_PRIVATE ==> SameOutsideFib(old(host.net).Of(f), host.net.Of(f))
      ensures host.faults == old(host.faults) ==>
                (err <==> !Fresh(old(host.net).Of(f).rules, Band(LinkLocal(f), cfg.Priv(f))))
    {
      ghost var n0, band := host.net, Band(LinkLocal(f), cfg.Priv(f));
      err := Clear(host, f);
      if err {
        return;
      }
      ghost var n1 := host.net;
      ghost var done;
      BandIsBand(LinkLocal(f), cfg.Priv(f));
      err, done := InstallBand(host, f, band);
      InstallOutcome(n0, n1, host.net, f, cfg.Priv(f), done);
      if done < |band| {
        InstallBlocked(n0.Of(f).rules, band, done);
      }
    }

    /** Clears and installs the rules of the enabled families. For up to 101 private networks per
        family, a success leaves the canonical state, every path leaves the rest of the namespace as it
        was, and only a kernel fault makes it fail. */
    method Init(host: Host) returns (err: bool)
      requires host.Valid()
      modifies host`net, host`faults
      ensures host.Valid() && old(host.faults) <= host.faults
      ensures !err && cfg.ipv4 ==> InitialisedFib(old(host.net.v4), host.net.v4, LinkLocal(V4), cfg.v4priv)
      ensures !err && cfg.ipv6 ==> InitialisedFib(old(host.net.v6), host.net.v6, LinkLocal(V6), cfg.v6priv)
      ensures cfg.WithinBound() && !err ==> host.net == Initialised(old(host.net), cfg)
      ensures cfg.WithinBound() ==> SameOutside(old(host.net), host.net, cfg)
      ensures cfg.WithinBound() && err ==> host.faults != old(host.faults)
    {
      err := false;
      if cfg.ipv4 {
        InitFamilyMeaning(host.net.v4, LinkLocal(V4), cfg.v4priv);
        err := InitFamily(host, V4);
        if err {
          return;
        }
      }
      if cfg.ipv6 {
        InitFamilyMeaning(host.net.v6, LinkLocal(V6), cfg.v6priv);
        err := InitFamily(host, V6);
        if err {
          return;
        }
      }
    }

    /** Routes one destination through a link; nothing happens for a family the pod does not have. */
    method AddEgress1(host: Host, dev: string, n: Subnet) returns (err: bool)
      requires host.Valid()
      modifies host`net, host`faults
      ensures host.Valid() && old(host.faults) <= host.faults
      ensures err ==> host.net == old(host.net) && cfg.Enabled(n.family)
      ensures !err ==> Free(old(host.net), cfg, n) && host.net == WithRoute(old(host.net), cfg, dev, n)
      ensures !err ==> host.faults == old(host.faults)
      ensures err && host.faults == old(host.faults) ==> !Free(old(host.net), cfg, n)
    {
      if !cfg.Enabled(n.family) {
        return false;
      }
      var priv := cfg.Priv(n.family);
      var base := Base(n.bits, Width(n.family));
      var e;
      for i := 0 to |priv|
        invariant host.net == old(host.net) && host.faults == old(host.faults) && host.Valid()
        invariant forall j | 0 <= j < i :: !(priv[j] <= base)
      {
        if !(priv[i] <= base) {
          continue;
        }
        assert priv[i] in priv;
        assert Narrow(priv, n.bits, Width(n.family));
        e := host.RouteAdd(n.family, NARROW_TABLE, n.bits, dev);
        return !e.Ok?;
      }
      assert !Narrow(priv, n.bits, Width(n.family));
      e := host.RouteAdd(n.family, WIDE_TABLE, n.bits, dev);
      err := !e.Ok?;
    }

    /** Registers the destinations of one gateway in order; the first `done` of them are routed at the end. */
    method AddEgress(host: Host, dev: string, subnets: seq<Subnet>) returns (err: bool, ghost done: nat)
      requires host.Valid()
      modifies host`net, host`faults
      ensures host.Valid() && old(host.faults) <= host.faults
      ensures Added(old(host.net), host.net, cfg, dev, subnets, done) && (!err <==> done == |subnets|)
      ensures err && host.faults == old(host.faults) ==> !Free(host.net, cfg, subnets[done])
      ensures OnlyRoutesAdded(old(host.net), host.net, cfg)
    {
      ghost var n0 := host.net;
      done := 0;
      for i := 0 to |subnets|
        invariant host.Valid() && host.faults == old(host.faults) && done == i
        invariant Added(n0, host.net, cfg, dev, subnets, i)
      {
        ghost var before := host.net;
        err := AddEgress1(host, dev, subnets[i]);
        if err {
          AddedOnlyRoutes(n0, host.net, cfg, dev, subnets, i);
          return;
        }
        AddedStep(n0, before, cfg, dev, subnets, i);
        done := done + 1;
      }
      AddedOnlyRoutes(n0, host.net, cfg, dev, subnets, |subnets|);
      err := false;
    }
  }

  /** The first `i` rules of the list have been looked at and the client's own removed. */
  ghost predicate Clearing(n0: Net, n: Net, f: Family, rs: seq<Rule>, i: nat) {
    i <= |rs| && n == n0.With(f, n0.Of(f).(rules := Swept(rs, i)))
  }

  lemma {:induction false} ClearingStarts(n: Net, f: Family)
    ensures Clearing(n, n, f, n.Of(f).rules, 0)
  {
    SweptEnds(n.Of(f).rules, 0);
  }

  /** Wherever the loop stops, the rules outside the band are those of the start. */
  lemma {:induction false} ClearingStops(n0: Net, n: Net, f: Family, i: nat)
    requires Clearing(n0, n, f, n0.Of(f).rules, i)
    ensures n == n0.With(f, n0.Of(f).(rules := n.Of(f).rules))
    ensures OutOfBand(n.Of(f).rules) == OutOfBand(n0.Of(f).rules)
    ensures i == |n0.Of(f).rules| ==> n.Of(f).rules == OutOfBand(n0.Of(f).rules)
  {
    SweptEnds(n0.Of(f).rules, i);
  }

  lemma {:induction false} WithSameTable(fib: Fib, t: int)
    ensures fib.WithTable(t, fib.TableOf(t)) == fib
  {
  }

  lemma {:induction false} WithTableTwice(fib: Fib, t: int, a: Table, b: Table)
    ensures fib.WithTable(t, a).WithTable(t, b) == fib.WithTable(t, b)
  {
  }

  /** The first `done` rules of the band have been added to `n0`, each of them new. */
  ghost predicate Progress(n0: Net, n: Net, f: Family, band: seq<Rule>, done: nat) {
    && done <= |band|
    && n == n0.With(f, n0.Of(f).(rules := Install(n0.Of(f).rules, band[..done])))
    && forall j | 0 <= j < done :: band[j] !in Install(n0.Of(f).rules, band[..j])
  }

  /** Registering destinations changes nothing but the client's own two tables. */
  ghost predicate OnlyRoutesAdded(a: Net, b: Net, cfg: Config) {
    SameOutside(a, b, cfg) && a.v4.rules == b.v4.rules && a.v6.rules == b.v6.rules
  }

  /** The state after registering destinations one after another. */
  function Adding(n: Net, cfg: Config, dev: string, nets: seq<Subnet>): Net {
    if nets == [] then n
    else
      var k := |nets| - 1;
      WithRoute(Adding(n, cfg, dev, nets[..k]), cfg, dev, nets[k])
  }

  lemma {:induction false} AddingStep(n: Net, cfg: Config, dev: string, nets: seq<Subnet>, i: nat)
    requires i < |nets|
    ensures Adding(n, cfg, dev, nets[..i + 1]) == WithRoute(Adding(n, cfg, dev, nets[..i]), cfg, dev, nets[i])
  {
    assert nets[..i + 1][..i] == nets[..i];
  }

  /** The first `done` destinations have been registered in `n0`, each of them new. */
  ghost predicate Added(n0: Net, n: Net, cfg: Config, dev: string, nets: seq<Subnet>, done: nat) {
    && done <= |nets|
    && n == Adding(n0, cfg, dev, nets[..done])
    && forall j | 0 <= j < done :: Free(Adding(n0, cfg, dev, nets[..j]), cfg, nets[j])
  }

  lemma {:induction false} AddedStep(n0: Net, n: Net, cfg: Config, dev: string, nets: seq<Subnet>, i: nat)
    requires Added(n0, n, cfg, dev, nets, i) && i < |nets| && Free(n, cfg, nets[i])
    ensures Added(n0, WithRoute(n, cfg, dev, nets[i]), cfg, dev, nets, i + 1)
  {
    AddingStep(n0, cfg, dev, nets, i);
  }

  lemma {:induction false} OnlyRoutesStep(a: Net, b: Net, cfg: Config, dev: string, s: Subnet)
    requires OnlyRoutesAdded(a, b, cfg)
    ensures OnlyRoutesAdded(a, WithRoute(b, cfg, dev, s), cfg)
  {
  }

  lemma {:induction false} AddedOnlyRoutes(n0: Net, n: Net, cfg: Config, dev: string, nets: seq<Subnet>, done: nat)
    requires Added(n0, n, cfg, dev, nets, done)
    ensures OnlyRoutesAdded(n0, n, cfg)
    decreases done
  {
    if done > 0 {
      var m := Adding(n0, cfg, dev, nets[..done - 1]);
      AddedBefore(n0, n, cfg, dev, nets, done);
      AddedOnlyRoutes(n0, m, cfg, dev, nets, done - 1);
      OnlyRoutesStep(n0, m, cfg, dev, nets[done - 1]);
    }
  }

  lemma {:induction false} HoldsRoute(n: Net, cfg: Config, es: seq<Entry>, dev: string, s: Subnet)
    requires Holds(n, cfg, es) && Free(n, cfg, s)
    ensures Holds(WithRoute(n, cfg, dev, s), cfg, es + if cfg.Enabled(s.family) then [Entry(s, dev)] else [])
  {
    if cfg.Enabled(s.family) {
      HoldsExtends(n, cfg, es, Entry(s, dev));
    } else {
      assert es + [] == es;
    }
  }

  lemma {:induction false} HoldsTaken(n: Net, cfg: Config, es: seq<Entry>, s: Subnet) returns (i: nat)
    requires Holds(n, cfg, es) && !Free(n, cfg, s)
    ensures i < |es| && es[i].net == s
  {
    HoldsExtends(n, cfg, es, Entry(s, ""));
    i :| i < |es| && es[i].net == s;
  }

  /** Registering in terms of what the client holds: the usable destinations registered join the held ones. */
  lemma {:induction false} AddedHolds(
    n0: Net, n: Net, cfg: Config, dev: string, nets: seq<Subnet>, done: nat, es: seq<Entry>)
    requires Holds(n0, cfg, es) && Added(n0, n, cfg, dev, nets, done)
    ensures Holds(n, cfg, es + Usable(cfg, dev, nets[..done]))
    decreases done
  {
    if done == 0 {
      assert es + Usable(cfg, dev, nets[..0]) == es;
    } else {
      var m := Adding(n0, cfg, dev, nets[..done - 1]);
      AddedBefore(n0, n, cfg, dev, nets, done);
      AddedHolds(n0, m, cfg, dev, nets, done - 1, es);
      var held, s := es + Usable(cfg, dev, nets[..done - 1]), nets[done - 1];
      HoldsRoute(m, cfg, held, dev, s);
      UsableGrows(cfg, dev, nets, done - 1, es);
      assert es + Usable(cfg, dev, nets[..done]) == held + if cfg.Enabled(s.family) then [Entry(s, dev)] else [];
    }
  }

  lemma {:induction false} AddedBefore(n0: Net, n: Net, cfg: Config, dev: string, nets: seq<Subnet>, done: nat)
    requires Added(n0, n, cfg, dev, nets, done) && done > 0
    ensures var m := Adding(n0, cfg, dev, nets[..done - 1]);
            && Added(n0, m, cfg, dev, nets, done - 1)
            && Free(m, cfg, nets[done - 1]) && n == WithRoute(m, cfg, dev, nets[done - 1])
  {
    AddingStep(n0, cfg, dev, nets, done - 1);
  }

  /** And a refused destination means a repetition in the whole list. */
  lemma {:induction false} RefusedRepeats(
    n0: Net, n: Net, cfg: Config, dev: string, nets: seq<Subnet>, done: nat, es: seq<Entry>)
    requires Holds(n0, cfg, es) && Added(n0, n, cfg, dev, nets, done)
    requires done < |nets| && !Free(n, cfg, nets[done])
    ensures !DistinctNets(es + Usable(cfg, dev, nets))
  {
    AddedHolds(n0, n, cfg, dev, nets, done, es);
    HeldRepeats(n, cfg, dev, nets, done, es);
  }

  lemma {:induction false} HeldRepeats(n: Net, cfg: Config, dev: string, nets: seq<Subnet>, done: nat, es: seq<Entry>)
    requires done < |nets| && !Free(n, cfg, nets[done]) && Holds(n, cfg, es + Usable(cfg, dev, nets[..done]))
    ensures !DistinctNets(es + Usable(cfg, dev, nets))
  {
    var i := HoldsTaken(n, cfg, es + Usable(cfg, dev, nets[..done]), nets[done]);
    UsablePrefix(cfg, dev, nets, done, es, i);
  }

  /** What Init did to one family: the cleared rules plus the band, and two empty tables. */
  ghost predicate InitialisedFib(a: Fib, b: Fib, linkLocal: Bits, priv: seq<Bits>) {
    && b.rules == Install(OutOfBand(a.rules), Band(linkLocal, priv))
    && b.TableOf(NARROW_TABLE) == map[] && b.TableOf(WIDE_TABLE) == map[]
    && forall t | t != NARROW_TABLE && t != WIDE_TABLE :: b.TableOf(t) == a.TableOf(t)
  }

  /** What clearing did to one family. */
  ghost predicate Cleared(a: Fib, b: Fib) {
    && b.rules == OutOfBand(a.rules)
    && b.TableOf(NARROW_TABLE) == map[] && b.TableOf(WIDE_TABLE) == map[]
    && forall t | t != NARROW_TABLE && t != WIDE_TABLE :: b.TableOf(t) == a.TableOf(t)
  }

  /** Clearing and then adding the first `done` rules of the band changes one family, and in it no other table. */
  lemma {:induction false} InstallFrame(n0: Net, n1: Net, n2: Net, f: Family, band: seq<Rule>, done: nat)
    requires n1 == n0.With(f, n1.Of(f)) && Cleared(n0.Of(f), n1.Of(f)) && Progress(n1, n2, f, band, done)
    ensures n2 == n0.With(f, n2.Of(f))
    ensures n2.Of(f).rules == Install(OutOfBand(n0.Of(f).rules), band[..done])
    ensures n2.Of(f).tables == n1.Of(f).tables
  {
  }

  lemma {:induction false} InstallFinished(a: Fib, b: Fib, c: Fib, linkLocal: Bits, priv: seq<Bits>)
    requires Cleared(a, b) && c.tables == b.tables
    requires c.rules == Install(OutOfBand(a.rules), Band(linkLocal, priv)[..|priv| + 3])
    ensures InitialisedFib(a, c, linkLocal, priv)
  {
    var band := Band(linkLocal, priv);
    assert band[..|priv| + 3] == band;
    assert forall t :: c.TableOf(t) == b.TableOf(t);
  }

  lemma {:induction false} InstallKeepsOutside(a: Fib, b: Fib, c: Fib, linkLocal: Bits, priv: seq<Bits>, done: nat)
    requires |priv| <= MAX_PRIVATE && done <= |priv| + 3 && Cleared(a, b) && c.tables == b.tables
    requires c.rules == Install(OutOfBand(a.rules), Band(linkLocal, priv)[..done])
    ensures SameOutsideFib(a, c)
  {
    assert forall t :: c.TableOf(t) == b.TableOf(t);
    InstallOutside(a.rules, linkLocal, priv);
  }

  lemma {:induction false} InstallWasFresh(n0: Net, n1: Net, n2: Net, f: Family, band: seq<Rule>)
    requires Cleared(n0.Of(f), n1.Of(f)) && Progress(n1, n2, f, band, |band|)
    ensures Fresh(n0.Of(f).rules, band)
  {
  }

  lemma {:induction false} InstallOutcome(n0: Net, n1: Net, n2: Net, f: Family, priv: seq<Bits>, done: nat)
    requires n1 == n0.With(f, n1.Of(f)) && Cleared(n0.Of(f), n1.Of(f))
    requires Progress(n1, n2, f, Band(LinkLocal(f), priv), done)
    ensures n2 == n0.With(f, n2.Of(f))
    ensures done == |priv| + 3 ==> InitialisedFib(n0.Of(f), n2.Of(f), LinkLocal(f), priv)
    ensures done == |priv| + 3 ==> Fresh(n0.Of(f).rules, Band(LinkLocal(f), priv))
    ensures |priv| <= MAX_PRIVATE ==> SameOutsideFib(n0.Of(f), n2.Of(f))
  {
    InstallFrame(n0, n1, n2, f, Band(LinkLocal(f), priv), done);
    if done == |priv| + 3 {
      InstallFinished(n0.Of(f), n1.Of(f), n2.Of(f), LinkLocal(f), priv);
      InstallWasFresh(n0, n1, n2, f, Band(LinkLocal(f), priv));
    }
    if |priv| <= MAX_PRIVATE {
      InstallKeepsOutside(n0.Of(f), n1.Of(f), n2.Of(f), LinkLocal(f), priv, done);
    }
  }

  lemma {:induction false} InstallBlocked(rules: seq<Rule>, band: seq<Rule>, done: nat)
    requires done < |band|
    ensures band[done] in Install(OutOfBand(rules), band[..done]) ==> !Fresh(rules, band)
  {
  }

  lemma {:induction false} InitFamilyMeaning(a: Fib, linkLocal: Bits, priv: seq<Bits>)
    requires RulesOk(a.rules)
    ensures |priv| <= MAX_PRIVATE ==> Fresh(a.rules, Band(linkLocal, priv))
    ensures |priv| <= MAX_PRIVATE ==>
              forall b | InitialisedFib(a, b, linkLocal, priv) :: b == CanonicalFib(a, linkLocal, priv)
  {
    if |priv| <= MAX_PRIVATE {
      FreshWithinBound(a.rules, linkLocal, priv);
      InstallIsCanonical(a.rules, linkLocal, priv);
      forall b | InitialisedFib(a, b, linkLocal, priv)
        ensures b == CanonicalFib(a, linkLocal, priv)
      {
        FibExt(b, CanonicalFib(a, linkLocal, priv));
      }
    }
  }

  /** The entries of one gateway that the pod has the address family for. */
  function Usable(cfg: Config, dev: string, nets: seq<Subnet>): (es: seq<Entry>)
    ensures forall i | 0 <= i < |es| :: cfg.Enabled(es[i].net.family) && es[i].dev == dev
  {
    if nets == [] then []
    else
      var k := |nets| - 1;
      Usable(cfg, dev, nets[..k]) + (if cfg.Enabled(nets[k].family) then [Entry(nets[k], dev)] else [])
  }

  lemma {:induction false} UsableStep(cfg: Config, dev: string, nets: seq<Subnet>, i: nat)
    requires i < |nets|
    ensures Usable(cfg, dev, nets[..i + 1])
         == Usable(cfg, dev, nets[..i]) + (if cfg.Enabled(nets[i].family) then [Entry(nets[i], dev)] else [])
  {
    assert nets[..i + 1][..i] == nets[..i];
  }

  lemma {:induction false} UsableMono(cfg: Config, dev: string, nets: seq<Subnet>, i: nat)
    requires i <= |nets|
    ensures Usable(cfg, dev, nets[..i]) <= Usable(cfg, dev, nets)
    decreases |nets| - i
  {
    if i < |nets| {
      UsableStep(cfg, dev, nets, i);
      UsableMono(cfg, dev, nets, i + 1);
    } else {
      assert nets[..i] == nets;
    }
  }

  lemma {:induction false} UsableGrows(cfg: Config, dev: string, nets: seq<Subnet>, i: nat, es: seq<Entry>)
    requires i < |nets|
    ensures es + Usable(cfg, dev, nets[..i + 1])
         == es + Usable(cfg, dev, nets[..i]) + if cfg.Enabled(nets[i].family) then [Entry(nets[i], dev)] else []
  {
    UsableStep(cfg, dev, nets, i);
  }

  /** A destination that the entries before position `i` have already makes the whole list a list with a
      repetition. */
  lemma {:induction false} UsablePrefix(cfg: Config, dev: string, nets: seq<Subnet>, i: nat, es: seq<Entry>, j: nat)
    requires i < |nets| && cfg.Enabled(nets[i].family)
    requires j < |es + Usable(cfg, dev, nets[..i])| && (es + Usable(cfg, dev, nets[..i]))[j].net == nets[i]
    ensures !DistinctNets(es + Usable(cfg, dev, nets))
  {
    var held := es + Usable(cfg, dev, nets[..i]);
    var all := es + Usable(cfg, dev, nets);
    UsableStep(cfg, dev, nets, i);
    UsableMono(cfg, dev, nets, i + 1);
    assert held + [Entry(nets[i], dev)] <= all;
    assert all[j] == held[j] && all[|held|] == Entry(nets[i], dev);
  }
}
