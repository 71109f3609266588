/** The flow-based receive devices after a list of peers has been added: what an uninterrupted pass leaves, what
    a retry after failures leaves, and which orders of the list make no difference. */
module ReceiveDevices {
  import opened Cidr
  import opened Kernel
  import opened LinkNames
  import opened FouTunnels

  /** The names of the links besides the fixed devices, and the families with a receive device. */
  datatype Devices = Devices(up: set<string>, recv: set<Family>)

  function Devs(n: Net): Devices {
    Devices(n.links.Keys - FIXED_NAMES, Receivers(n))
  }

  function Names(h: Hash, todo: seq<IP>): set<string> {
    set a | a in todo :: FouName(h, a)
  }

  /** One AddPeer without faults: a new link takes over the receive devices. */
  function AfterPeer(h: Hash, d: Devices, a: IP): Devices {
    if FouName(h, a) in d.up then d else Devices(d.up + {FouName(h, a)}, {a.family})
  }

  function AfterPeers(h: Hash, d: Devices, todo: seq<IP>): Devices {
    if todo == [] then d else AfterPeer(h, AfterPeers(h, d, todo[..|todo| - 1]), todo[|todo| - 1])
  }

  // ---- one peer ------------------------------------------------------------------------------------

  lemma {:induction false} NewLink(h: Hash, n: Net, n': Net, a: IP)
    requires DevicesOnly(WithTunnel(h, n, a), n')
    ensures Devs(n').up == Devs(n).up + {FouName(h, a)}
  {
    FouNameNotFixed(h, a);
    var m := WithTunnel(h, n, a);
    forall x
      ensures x in Devs(n').up <==> x in Devs(n).up || x == FouName(h, a)
    {
      assert x !in FIXED_NAMES ==> (x in m.links <==> x in n'.links);
    }
  }

  lemma {:induction false} PeerAddedDevs(h: Hash, n: Net, n': Net, a: IP, clean: bool)
    requires PeerAdded(h, n, n', a, clean)
    ensures Tried(h, Devs(n), Devs(n'), a) && FouName(h, a) in Devs(n').up
    ensures clean ==> Devs(n') == AfterPeer(h, Devs(n), a)
  {
    FouNameNotFixed(h, a);
    if FouName(h, a) !in n.links {
      NewLink(h, n, n', a);
    }
  }

  /** One AddPeer, whatever its outcome. */
  predicate Tried(h: Hash, d: Devices, d': Devices, a: IP) {
    d' == d || (FouName(h, a) !in d.up && d'.up == d.up + {FouName(h, a)})
  }

  lemma {:induction false} PeerCutDevs(h: Hash, n: Net, n': Net, a: IP)
    requires PeerCut(h, n, n', a)
    ensures Tried(h, Devs(n), Devs(n'), a)
  {
    FouNameNotFixed(h, a);
    if n' != n {
      NewLink(h, n, n', a);
    }
  }

  /** After a fault-free AddPeer the peer's family can receive exactly when the link was new or the family could
      receive before: an existing link is returned without a look at the devices. */
  lemma {:induction false} PeerHeardIff(h: Hash, n: Net, n': Net, a: IP)
    requires PeerAdded(h, n, n', a, true)
    ensures a.family in Receivers(n') <==> FouName(h, a) !in n.links || a.family in Receivers(n)
    ensures TrueDevices(n) ==> TrueDevices(n')
    ensures IpipName(a.family) !in n.links && FouName(h, a) !in n.links ==>
              IpipName(a.family) in n'.links && n'.links[IpipName(a.family)] == FlowBased(a.family)
  {
    if TrueDevices(n) {
      StepKeepsDevices(h, n, n', Add(a));
    }
    FouNameNotFixed(h, a);
    assert FouName(h, a) !in n.links ==> DeviceOr(WithTunnel(h, n, a), n', a.family);
    assert IpipName(a.family) in FIXED_NAMES;
  }

  /** A call that fails right after it created the link leaves the peer unheard: every later call for it finds the
      link and repairs nothing, while an uninterrupted call would have set up the device. */
  lemma {:induction false} CutPeerStaysUnheard(h: Hash, n: Net, n2: Net, u: Net, a: IP)
    requires FouName(h, a) !in n.links && Receivers(n) == {}
    requires PeerAdded(h, WithTunnel(h, n, a), n2, a, true) && PeerAdded(h, n, u, a, true)
    ensures PeerCut(h, n, WithTunnel(h, n, a), a)
    ensures Receivers(n2) == {} && Receivers(u) == {a.family}
  {
    FouNameNotFixed(h, a);
    assert IpipName(V4) in FIXED_NAMES && IpipName(V6) in FIXED_NAMES;
  }

  // ---- a list of peers -------------------------------------------------------------------------------

  lemma {:induction false} NamesSplit(h: Hash, x: seq<IP>, y: seq<IP>)
    ensures Names(h, x + y) == Names(h, x) + Names(h, y)
  {
  }

  lemma {:induction false} NamesStep(h: Hash, todo: seq<IP>, i: nat)
    requires i < |todo|
    ensures Names(h, todo[..i + 1]) == Names(h, todo[..i]) + {FouName(h, todo[i])}
    ensures Names(h, todo[..i]) <= Names(h, todo) && FouName(h, todo[i]) in Names(h, todo)
  {
    assert todo[..i + 1] == todo[..i] + [todo[i]];
    NamesSplit(h, todo[..i], [todo[i]]);
  }

  lemma {:induction false} AfterOne(h: Hash, d: Devices, a: IP)
    ensures AfterPeers(h, d, [a]) == AfterPeer(h, d, a)
  {
    assert [a][..0] == [];
  }

  lemma {:induction false} AfterPeersConcat(h: Hash, d: Devices, x: seq<IP>, y: seq<IP>)
    ensures AfterPeers(h, d, x + y) == AfterPeers(h, AfterPeers(h, d, x), y)
  {
    if y == [] {
      assert x + y == x;
    } else {
      var k := |y| - 1;
      assert (x + y)[..|x + y| - 1] == x + y[..k];
      AfterPeersConcat(h, d, x, y[..k]);
    }
  }

  lemma {:induction false} AfterPeersUp(h: Hash, d: Devices, todo: seq<IP>)
    ensures AfterPeers(h, d, todo).up == d.up + Names(h, todo)
  {
    if todo != [] {
      var k := |todo| - 1;
      AfterPeersUp(h, d, todo[..k]);
      NamesStep(h, todo, k);
      assert todo[..k + 1] == todo;
    }
  }

  lemma {:induction false} NothingToCreate(h: Hash, d: Devices, todo: seq<IP>)
    requires Names(h, todo) <= d.up
    ensures AfterPeers(h, d, todo) == d
  {
    if todo != [] {
      var k := |todo| - 1;
      NamesStep(h, todo, k);
      NothingToCreate(h, d, todo[..k]);
    }
  }

  /** The links of the list that are up. */
  function Seen(h: Hash, d: Devices, todo: seq<IP>): set<string> {
    d.up * Names(h, todo)
  }

  lemma {:induction false} SeenPrefix(h: Hash, d: Devices, e: Devices, todo: seq<IP>, i: nat)
    requires i < |todo| && Seen(h, d, todo) == Seen(h, e, todo)
    ensures Seen(h, d, todo[..i]) == Seen(h, e, todo[..i])
    ensures FouName(h, todo[i]) in d.up <==> FouName(h, todo[i]) in e.up
  {
    NamesStep(h, todo, i);
    assert forall x | x in Names(h, todo) :: x in d.up <==> x in Seen(h, d, todo);
    assert forall x | x in Names(h, todo) :: x in e.up <==> x in Seen(h, e, todo);
  }

  /** With a link to create, the devices there before make no difference. */
  lemma {:induction false} CreationDecides(h: Hash, d: Devices, e: Devices, todo: seq<IP>)
    requires Seen(h, d, todo) == Seen(h, e, todo) && !(Names(h, todo) <= d.up)
    ensures AfterPeers(h, d, todo).recv == AfterPeers(h, e, todo).recv
  {
    var k := |todo| - 1;
    NamesStep(h, todo, k);
    assert todo[..k + 1] == todo;
    SeenPrefix(h, d, e, todo, k);
    AfterPeersUp(h, d, todo[..k]);
    AfterPeersUp(h, e, todo[..k]);
    if !(Names(h, todo[..k]) <= d.up) {
      CreationDecides(h, d, e, todo[..k]);
    } else {
      assert FouName(h, todo[k]) !in d.up;
    }
  }

  /** What a pass leaves depends on the receive devices and the links of the list only. */
  lemma {:induction false} SameSeenSameRecv(h: Hash, d: Devices, e: Devices, todo: seq<IP>)
    requires Seen(h, d, todo) == Seen(h, e, todo) && d.recv == e.recv
    ensures AfterPeers(h, d, todo).recv == AfterPeers(h, e, todo).recv
  {
    if Names(h, todo) <= d.up {
      assert Names(h, todo) <= Seen(h, e, todo);
      NothingToCreate(h, d, todo);
      NothingToCreate(h, e, todo);
    } else {
      CreationDecides(h, d, e, todo);
    }
  }

  /** A pass over the list that may have stopped anywhere: the links of a leading part are up, and if none of
      them was new the receive devices are as before. */
  ghost predicate TodoCut(h: Hash, d: Devices, d': Devices, todo: seq<IP>) {
    exists k: nat | k <= |todo| :: CutAt(h, d, d', todo, k)
  }

  predicate CutAt(h: Hash, d: Devices, d': Devices, todo: seq<IP>, k: nat)
    requires k <= |todo|
  {
    && Seen(h, d', todo) == Seen(h, d, todo) + Names(h, todo[..k])
    && (Names(h, todo[..k]) <= d.up ==> d'.recv == d.recv)
  }

  lemma {:induction false} LeadingPartUp(up: set<string>, up1: set<string>, x: set<string>, y: set<string>)
    requires up1 * (x + y) == up * (x + y) + x
    ensures x <= up1 && (up + x) * y == up1 * y
    ensures !(x + y <= up1) ==> !(y <= up1)
  {
    assert forall z | z in x + y :: z in up1 <==> z in up1 * (x + y);
    assert forall z | z in x + y :: z in up <==> z in up * (x + y);
  }

  lemma {:induction false} CutAtRestart(h: Hash, d: Devices, d1: Devices, todo: seq<IP>, k: nat)
    requires k <= |todo| && CutAt(h, d, d1, todo, k) && !(Names(h, todo) <= d1.up)
    ensures AfterPeers(h, d1, todo).recv == AfterPeers(h, d, todo).recv
  {
    var x, y := todo[..k], todo[k..];
    assert todo == x + y;
    NamesSplit(h, x, y);
    LeadingPartUp(d.up, d1.up, Names(h, x), Names(h, y));
    AfterPeersConcat(h, d, x, y);
    AfterPeersConcat(h, d1, x, y);
    AfterPeersUp(h, d, x);
    NothingToCreate(h, d1, x);
    CreationDecides(h, d1, AfterPeers(h, d, x), y);
  }

  /** Completing a pass after it was cut: the receive devices are those of an uninterrupted pass exactly when
      a link was still missing or the devices were right already. With all links up nothing is repaired. */
  lemma {:induction false} RestartHeardIff(h: Hash, d: Devices, d1: Devices, todo: seq<IP>)
    requires TodoCut(h, d, d1, todo)
    ensures AfterPeers(h, d1, todo).recv == AfterPeers(h, d, todo).recv
       <==> (Names(h, todo) <= d1.up ==> d1.recv == AfterPeers(h, d, todo).recv)
  {
    var k: nat :| k <= |todo| && CutAt(h, d, d1, todo, k);
    if Names(h, todo) <= d1.up {
      NothingToCreate(h, d1, todo);
    } else {
      CutAtRestart(h, d, d1, todo, k);
    }
  }

  /** A pass in which every AddPeer succeeded. */
  predicate Passed(h: Hash, d: Devices, d': Devices, todo: seq<IP>, clean: bool) {
    && d'.up == d.up + Names(h, todo)
    && (Names(h, todo) <= d.up ==> d'.recv == d.recv)
    && (clean ==> d' == AfterPeers(h, d, todo))
  }

  lemma {:induction false} PassedNothing(h: Hash, d: Devices)
    ensures Passed(h, d, d, [], true)
  {
  }

  lemma {:induction false} PassedStep(h: Hash, d: Devices, d1: Devices, d2: Devices, todo: seq<IP>, a: IP, clean: bool)
    requires Passed(h, d, d1, todo, clean) && Tried(h, d1, d2, a) && FouName(h, a) in d2.up
    requires clean ==> d2 == AfterPeer(h, d1, a)
    ensures Passed(h, d, d2, todo + [a], clean)
  {
    NamesSplit(h, todo, [a]);
    assert Names(h, [a]) == {FouName(h, a)};
    assert (todo + [a])[..|todo|] == todo;
  }

  /** A pass over a leading part of the list is a cut pass over the list. */
  lemma {:induction false} PassedIsCut(h: Hash, d: Devices, d': Devices, x: seq<IP>, y: seq<IP>)
    requires Passed(h, d, d', x, false)
    ensures TodoCut(h, d, d', x + y)
  {
    NamesSplit(h, x, y);
    assert (x + y)[..|x|] == x;
    assert CutAt(h, d, d', x + y, |x|);
  }

  /** So is one that stopped at the address behind it, whether its link was created or not. */
  lemma {:induction false} StoppedIsCut(h: Hash, d: Devices, d1: Devices, d2: Devices, x: seq<IP>, a: IP, todo: seq<IP>)
    requires x + [a] <= todo && Passed(h, d, d1, x, false) && Tried(h, d1, d2, a)
    ensures TodoCut(h, d, d2, todo)
  {
    if d2 == d1 {
      PassedIsCut(h, d, d1, x, todo[|x|..]);
      assert x + todo[|x|..] == todo;
    } else {
      PassedStep(h, d, d1, d2, x, a, false);
      PassedIsCut(h, d, d2, x + [a], todo[|x| + 1..]);
      assert x + [a] + todo[|x| + 1..] == todo;
    }
  }

  /** After the links of some peers, none of which clashed at the start, a peer clashes exactly when it did then. */
  lemma {:induction false} ClashUnchanged(h: Hash, n0: Net, n: Net, todo: seq<IP>, a: IP)
    requires Devs(n).up == Devs(n0).up + Names(h, todo) && forall f :: Clash(n, f) <==> Clash(n0, f)
    requires forall b | b in todo :: !PeerClash(h, n0, b)
    ensures PeerClash(h, n, a) <==> PeerClash(h, n0, a)
  {
    FouNameNotFixed(h, a);
    var x := FouName(h, a);
    assert x in n.links <==> x in Devs(n).up;
    assert x in n0.links <==> x in Devs(n0).up;
    if x in Names(h, todo) {
      var b :| b in todo && FouName(h, b) == x;
      FouNameInjective(h, a, b);
    }
  }

  /** A clash after cut passes was there before them. */
  lemma {:induction false} ClashWasThere(h: Hash, n0: Net, n: Net, todo: seq<IP>, a: IP)
    requires TodoCut(h, Devs(n0), Devs(n), todo) && a in todo && PeerClash(h, n, a)
    requires forall f | Clash(n, f) :: Clash(n0, f)
    ensures PeerClash(h, n0, a)
  {
    FouNameNotFixed(h, a);
    var k: nat :| k <= |todo| && CutAt(h, Devs(n0), Devs(n), todo, k);
    assert FouName(h, a) in Devs(n0).up ==> FouName(h, a) in Seen(h, Devs(n0), todo);
  }

  /** Deleting other links is no difference. */
  lemma {:induction false} CutUnseen(h: Hash, d: Devices, d1: Devices, d2: Devices, todo: seq<IP>)
    requires TodoCut(h, d, d1, todo) && Seen(h, d2, todo) == Seen(h, d1, todo) && d2.recv == d1.recv
    ensures TodoCut(h, d, d2, todo)
  {
    var k: nat :| k <= |todo| && CutAt(h, d, d1, todo, k);
    assert CutAt(h, d, d2, todo, k);
  }

  /** A pass over one new peer that stops right after the link was created: its completion leaves no receive device,
      an uninterrupted pass leaves the peer's. */
  lemma {:induction false} UnheardAfterRetry(h: Hash, a: IP)
    ensures var d, d1 := Devices({}, {}), Devices({FouName(h, a)}, {});
            && TodoCut(h, d, d1, [a])
            && AfterPeers(h, d1, [a]).recv == {} && AfterPeers(h, d, [a]).recv == {a.family}
  {
    var d, d1 := Devices({}, {}), Devices({FouName(h, a)}, {});
    AfterOne(h, d, a);
    AfterOne(h, d1, a);
    assert Names(h, [a]) == {FouName(h, a)} && [a][..1] == [a];
    assert CutAt(h, d, d1, [a], 1);
  }

  lemma {:induction false} NamesMono(h: Hash, todo: seq<IP>, i: nat, j: nat)
    requires i <= j <= |todo|
    ensures Names(h, todo[..i]) <= Names(h, todo[..j])
  {
  }

  lemma {:induction false} CutAtTwice(h: Hash, d: Devices, d1: Devices, d2: Devices, todo: seq<IP>, i: nat, j: nat)
    requires i <= |todo| && j <= |todo| && CutAt(h, d, d1, todo, i) && CutAt(h, d1, d2, todo, j)
    ensures CutAt(h, d, d2, todo, if i <= j then j else i)
  {
    var k := if i <= j then j else i;
    NamesMono(h, todo, i, k);
    NamesMono(h, todo, j, k);
    assert Names(h, todo[..i]) + Names(h, todo[..j]) == Names(h, todo[..k]);
    if Names(h, todo[..k]) <= d.up {
      assert Names(h, todo[..j]) <= Seen(h, d, todo) by {
        NamesMono(h, todo, j, |todo|);
        assert todo[..|todo|] == todo;
      }
      assert Seen(h, d, todo) <= Seen(h, d1, todo);
    }
  }

  /** Cut passes one after another are one cut pass, so the condition is the same for any number of retries. */
  lemma {:induction false} CutTwice(h: Hash, d: Devices, d1: Devices, d2: Devices, todo: seq<IP>)
    requires TodoCut(h, d, d1, todo) && TodoCut(h, d1, d2, todo)
    ensures TodoCut(h, d, d2, todo)
  {
    var i: nat :| i <= |todo| && CutAt(h, d, d1, todo, i);
    var j: nat :| j <= |todo| && CutAt(h, d1, d2, todo, j);
    CutAtTwice(h, d, d1, d2, todo, i, j);
  }

  /** Attempts that were cut, one after another; `devs` is what the last one left. */
  datatype Attempts = Before(devs: Devices) | Again(before: Attempts, devs: Devices)

  function FirstDevs(t: Attempts): Devices {
    if t.Before? then t.devs else FirstDevs(t.before)
  }

  ghost predicate AllCut(h: Hash, t: Attempts, todo: seq<IP>) {
    t.Again? ==> AllCut(h, t.before, todo) && TodoCut(h, t.before.devs, t.devs, todo)
  }

  lemma {:induction false} AttemptsAreCut(h: Hash, t: Attempts, todo: seq<IP>)
    requires AllCut(h, t, todo)
    ensures TodoCut(h, FirstDevs(t), t.devs, todo)
  {
    if t.Before? {
      assert Names(h, todo[..0]) == {};
      assert CutAt(h, t.devs, t.devs, todo, 0);
    } else {
      AttemptsAreCut(h, t.before, todo);
      CutTwice(h, FirstDevs(t), t.before.devs, t.devs, todo);
    }
  }

  // ---- the order of the list -------------------------------------------------------------------------

  /** Some address of family `f` in the list has no link yet. */
  predicate CreatesFor(h: Hash, d: Devices, todo: seq<IP>, f: Family) {
    exists a | a in todo :: a.family == f && FouName(h, a) !in d.up
  }

  /** With a link to create, the devices left are those of a peer whose link is new. */
  lemma {:induction false} CreationWins(h: Hash, d: Devices, todo: seq<IP>) returns (a: IP)
    requires !(Names(h, todo) <= d.up)
    ensures a in todo && FouName(h, a) !in d.up && AfterPeers(h, d, todo).recv == {a.family}
  {
    var k := |todo| - 1;
    NamesStep(h, todo, k);
    assert todo[..k + 1] == todo;
    AfterPeersUp(h, d, todo[..k]);
    if FouName(h, todo[k]) in d.up + Names(h, todo[..k]) {
      a := CreationWins(h, d, todo[..k]);
    } else {
      a := todo[k];
    }
  }

  /** A list that ends with all its addresses of one family: if one of them is new, that family wins. */
  lemma {:induction false} FamilyLast(h: Hash, d: Devices, x: seq<IP>, y: seq<IP>, f: Family)
    requires (forall a | a in x :: a.family != f) && (forall a | a in y :: a.family == f)
    requires CreatesFor(h, d, y, f)
    ensures AfterPeers(h, d, x + y).recv == {f}
  {
    AfterPeersConcat(h, d, x, y);
    AfterPeersUp(h, d, x);
    var e := AfterPeers(h, d, x);
    var a :| a in y && a.family == f && FouName(h, a) !in d.up;
    forall b | b in x
      ensures FouName(h, b) != FouName(h, a)
    {
      FouNameInjective(h, a, b);
    }
    assert FouName(h, a) in Names(h, y) && FouName(h, a) !in e.up;
    var b := CreationWins(h, e, y);
  }

  /** All new links are of one family, or there is none. */
  ghost predicate OneFamily(h: Hash, d: Devices, todo: seq<IP>) {
    !(CreatesFor(h, d, todo, V4) && CreatesFor(h, d, todo, V6))
  }

  lemma {:induction false} OneFamilyAgrees(h: Hash, d: Devices, s: seq<IP>, t: seq<IP>)
    requires multiset(s) == multiset(t) && OneFamily(h, d, s)
    ensures AfterPeers(h, d, s).recv == AfterPeers(h, d, t).recv
  {
    assert forall a :: a in s <==> a in multiset(s);
    assert forall a :: a in t <==> a in multiset(t);
    assert Names(h, s) == Names(h, t);
    if Names(h, s) <= d.up {
      NothingToCreate(h, d, s);
      NothingToCreate(h, d, t);
    } else {
      var a := CreationWins(h, d, s);
      var b := CreationWins(h, d, t);
      assert CreatesFor(h, d, s, a.family) && CreatesFor(h, d, s, b.family);
    }
  }
}
