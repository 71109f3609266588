/** Which receive devices a pod is left with, as a matter of the order in which its annotations are read. */
module PeerOrder {
  import opened Cidr
  import opened Kernel
  import opened LinkNames
  import opened NatClients
  import opened Bootstrap
  import opened FouTunnels
  import opened ReceiveDevices
  import opened Annotations
  import opened Agents

  // ---- a list with some of its elements moved to the end ---------------------------------------------

  function Select<T>(p: T -> bool, yes: bool, s: seq<T>): seq<T> {
    if s == [] then []
    else
      var k := |s| - 1;
      Select(p, yes, s[..k]) + if p(s[k]) == yes then [s[k]] else []
  }

  lemma {:induction false} SelectMembers<T>(p: T -> bool, yes: bool, s: seq<T>, x: T)
    ensures x in Select(p, yes, s) <==> x in s && p(x) == yes
  {
    if s != [] {
      var k := |s| - 1;
      SelectMembers(p, yes, s[..k], x);
      assert s == s[..k] + [s[k]];
    }
  }

  lemma {:induction false} SelectSplits<T>(p: T -> bool, s: seq<T>)
    ensures multiset(Select(p, false, s)) + multiset(Select(p, true, s)) == multiset(s)
  {
    if s != [] {
      var k := |s| - 1;
      SelectSplits(p, s[..k]);
      assert s == s[..k] + [s[k]];
      assert multiset(s) == multiset(s[..k]) + multiset{s[k]};
      assert multiset(Select(p, p(s[k]), s)) == multiset(Select(p, p(s[k]), s[..k])) + multiset{s[k]};
      assert Select(p, !p(s[k]), s) == Select(p, !p(s[k]), s[..k]);
    }
  }

  function Last<T>(p: T -> bool, s: seq<T>): seq<T> {
    Select(p, false, s) + Select(p, true, s)
  }

  lemma {:induction false} LastReorders<T>(p: T -> bool, s: seq<T>)
    ensures multiset(Last(p, s)) == multiset(s)
  {
    SelectSplits(p, s);
  }

  // ---- the peers of an egress --------------------------------------------------------------------------

  /** At most one. */
  function EgressPeers(c: Cluster, cfg: Config): ObjectKey -> seq<IP> {
    (o: ObjectKey) => FlatMap(PeerFun(cfg), GatewayFun(c)(o))
  }

  lemma {:induction false} FlatMapTwice<T, U, V>(f: T -> seq<U>, g: U -> seq<V>, k: T -> seq<V>, s: seq<T>)
    requires forall x :: k(x) == FlatMap(g, f(x))
    ensures FlatMap(g, FlatMap(f, s)) == FlatMap(k, s)
  {
    if s != [] {
      var i := |s| - 1;
      FlatMapTwice(f, g, k, s[..i]);
      FlatMapConcat(g, FlatMap(f, s[..i]), f(s[i]));
    }
  }

  lemma {:induction false} PeersOfNames(c: Cluster, cfg: Config, names: seq<ObjectKey>)
    ensures Peers(cfg, FlatMap(GatewayFun(c), names)) == FlatMap(EgressPeers(c, cfg), names)
  {
    FlatMapTwice(GatewayFun(c), PeerFun(cfg), EgressPeers(c, cfg), names);
  }

  lemma {:induction false} PeerOfOne(c: Cluster, cfg: Config, o: ObjectKey)
    ensures |EgressPeers(c, cfg)(o)| <= 1
  {
    var l := GatewayFun(c)(o);
    if l != [] {
      FlatMapOne(PeerFun(cfg), l[0]);
      assert l == [l[0]];
    }
  }

  /** The egress leads to a gateway of the family that gets a tunnel. */
  function OfFamily(c: Cluster, cfg: Config, f: Family): ObjectKey -> bool {
    (o: ObjectKey) => var s := EgressPeers(c, cfg)(o); s != [] && s[0].family == f
  }

  lemma {:induction false} PeerOfFamily(c: Cluster, cfg: Config, f: Family, o: ObjectKey, a: IP)
    requires a in EgressPeers(c, cfg)(o)
    ensures OfFamily(c, cfg, f)(o) <==> a.family == f
  {
    PeerOfOne(c, cfg, o);
  }

  lemma {:induction false} SelectedPeers(c: Cluster, cfg: Config, f: Family, yes: bool, names: seq<ObjectKey>, a: IP)
    ensures a in FlatMap(EgressPeers(c, cfg), Select(OfFamily(c, cfg, f), yes, names))
       <==> a in FlatMap(EgressPeers(c, cfg), names) && (a.family == f) == yes
  {
    var peers, chosen := EgressPeers(c, cfg), Select(OfFamily(c, cfg, f), yes, names);
    FlatMapMembers(peers, chosen, a);
    FlatMapMembers(peers, names, a);
    if o :| o in chosen && a in peers(o) {
      SelectMembers(OfFamily(c, cfg, f), yes, names, o);
      PeerOfFamily(c, cfg, f, o, a);
    }
    if o :| o in names && a in peers(o) {
      SelectMembers(OfFamily(c, cfg, f), yes, names, o);
      PeerOfFamily(c, cfg, f, o, a);
    }
  }

  // ---- which devices are left ----------------------------------------------------------------------------

  /** The receive devices a fault-free set-up leaves when the egresses are read in this order. */
  function LeftDevices(c: Cluster, cfg: Config, h: Hash, n: Net, names: seq<ObjectKey>): set<Family> {
    AfterPeers(h, Devs(n), FlatMap(EgressPeers(c, cfg), names)).recv
  }

  lemma {:induction false} SetupLeavesDevices(
    c: Cluster, cfg: Config, h: Hash, names: seq<ObjectKey>, n0: Net, b: Boot, n: Net)
    requires AddOutcome(cfg, h, c, names, n0, b, n, false, true)
    ensures Receivers(n) == LeftDevices(c, cfg, h, n0, names)
  {
    var l := FlatMap(GatewayFun(c), names);
    PeersOfNames(c, cfg, names);
    if l == [] {
      assert Peers(cfg, l) == [];
    }
  }

  /** Egresses read with those of one family last: that family's receive device is left, if it has a new link. */
  lemma {:induction false} FamilyReadLast(c: Cluster, cfg: Config, h: Hash, n: Net, names: seq<ObjectKey>, f: Family)
    requires CreatesFor(h, Devs(n), FlatMap(EgressPeers(c, cfg), names), f)
    ensures LeftDevices(c, cfg, h, n, Last(OfFamily(c, cfg, f), names)) == {f}
  {
    var peers, p := EgressPeers(c, cfg), OfFamily(c, cfg, f);
    var x, y := FlatMap(peers, Select(p, false, names)), FlatMap(peers, Select(p, true, names));
    FlatMapConcat(peers, Select(p, false, names), Select(p, true, names));
    forall a: IP
      ensures a in x <==> a in FlatMap(peers, names) && a.family != f
      ensures a in y <==> a in FlatMap(peers, names) && a.family == f
    {
      SelectedPeers(c, cfg, f, false, names, a);
      SelectedPeers(c, cfg, f, true, names, a);
    }
    FamilyLast(h, Devs(n), x, y, f);
  }

  lemma {:induction false} TwoFamiliesDisagree(c: Cluster, cfg: Config, h: Hash, n: Net, names: seq<ObjectKey>)
    requires !OneFamily(h, Devs(n), FlatMap(EgressPeers(c, cfg), names))
    ensures var s4, s6 := Last(OfFamily(c, cfg, V4), names), Last(OfFamily(c, cfg, V6), names);
            && multiset(s4) == multiset(names) && multiset(s6) == multiset(names)
            && LeftDevices(c, cfg, h, n, s4) == {V4} && LeftDevices(c, cfg, h, n, s6) == {V6}
  {
    LastReorders(OfFamily(c, cfg, V4), names);
    LastReorders(OfFamily(c, cfg, V6), names);
    FamilyReadLast(c, cfg, h, n, names, V4);
    FamilyReadLast(c, cfg, h, n, names, V6);
  }

  /** All orders of reading the annotations leave the same receive devices exactly when the links to be created are
      of one family. For a pod with new gateways of both families the order decides which can receive. */
  lemma {:induction false} AllOrdersSameDevicesIff(c: Cluster, cfg: Config, h: Hash, n: Net, names: seq<ObjectKey>)
    ensures (forall names' | multiset(names') == multiset(names) ::
               LeftDevices(c, cfg, h, n, names') == LeftDevices(c, cfg, h, n, names))
       <==> OneFamily(h, Devs(n), FlatMap(EgressPeers(c, cfg), names))
  {
    var peers := EgressPeers(c, cfg);
    if OneFamily(h, Devs(n), FlatMap(peers, names)) {
      forall names' | multiset(names') == multiset(names)
        ensures LeftDevices(c, cfg, h, n, names') == LeftDevices(c, cfg, h, n, names)
      {
        FlatMapReordered(peers, names, names');
        OneFamilyAgrees(h, Devs(n), FlatMap(peers, names), FlatMap(peers, names'));
      }
    } else {
      TwoFamiliesDisagree(c, cfg, h, n, names);
      assert V4 in {V4} && V4 !in {V6};
    }
  }

  /** Two new peers of different families: the second one takes the receive device. */
  lemma {:induction false} OrderDecides(h: Hash, n: Net, a: IP, b: IP)
    requires a.family.V4? && b.family.V6? && FouName(h, a) !in n.links && FouName(h, b) !in n.links
    ensures AfterPeers(h, Devs(n), [a, b]).recv == {V6} && AfterPeers(h, Devs(n), [b, a]).recv == {V4}
  {
    assert a in [a] && b in [b];
    assert [a] + [b] == [a, b] && [b] + [a] == [b, a];
    FamilyLast(h, Devs(n), [a], [b], V6);
    FamilyLast(h, Devs(n), [b], [a], V4);
  }
}
