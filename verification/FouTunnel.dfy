/** Foo-over-UDP tunnels: one link per peer, plus the flow-based receive devices. */
module FouTunnels {
  import opened Cidr
  import opened Kernel
  import opened LinkNames
  import opened Bootstrap
  import opened Options

  datatype PeerErr = PeerOk | FamilyMismatch | PeerFailed

  ghost predicate NoFixedDevice(t: Table) {
    forall d | d in t :: t[d] !in FIXED_NAMES
  }

  /** Routes through fixed devices may have gone or changed their device; there are no new ones. */
  ghost predicate FixedOnly(a: Table, b: Table) {
    b.Keys <= a.Keys && (NoFixedDevice(a) ==> b == a)
  }

  /** The receive device of a family, if there is one afterwards, is the one found or a flow-based tunnel of that
      family. */
  predicate DeviceOr(a: Net, b: Net, f: Family) {
    IpipName(f) in b.links ==>
      b.links[IpipName(f)] == FlowBased(f) || (IpipName(f) in a.links && b.links[IpipName(f)] == a.links[IpipName(f)])
  }

  /** Every receive device is a flow-based tunnel of its family. */
  ghost predicate TrueDevices(n: Net) {
    forall f | IpipName(f) in n.links :: n.links[IpipName(f)] == FlowBased(f)
  }

  /** Only fixed devices, and routes through them, differ. */
  ghost predicate DevicesOnly(a: Net, b: Net) {
    && a.v4.rules == b.v4.rules && a.v6.rules == b.v6.rules
    && (forall name | name !in FIXED_NAMES :: name in a.links <==> name in b.links)
    && (forall name | name !in FIXED_NAMES && name in a.links && name in b.links :: a.links[name] == b.links[name])
    && (forall f :: DeviceOr(a, b, f))
    && (forall t :: FixedOnly(a.v4.TableOf(t), b.v4.TableOf(t)))
    && (forall t :: FixedOnly(a.v6.TableOf(t), b.v6.TableOf(t)))
  }

  lemma {:induction false} DevicesOnlyTrans(a: Net, b: Net, c: Net)
    requires DevicesOnly(a, b) && DevicesOnly(b, c)
    ensures DevicesOnly(a, c)
  {
    forall f
      ensures DeviceOr(a, c, f)
    {
      assert DeviceOr(a, b, f) && DeviceOr(b, c, f);
    }
    forall t
      ensures FixedOnly(a.v4.TableOf(t), c.v4.TableOf(t)) && FixedOnly(a.v6.TableOf(t), c.v6.TableOf(t))
    {
      assert FixedOnly(a.v4.TableOf(t), b.v4.TableOf(t)) && FixedOnly(b.v4.TableOf(t), c.v4.TableOf(t));
      assert FixedOnly(a.v6.TableOf(t), b.v6.TableOf(t)) && FixedOnly(b.v6.TableOf(t), c.v6.TableOf(t));
    }
  }

  lemma {:induction false} DropIsFixedOnly(t: Table, name: string)
    requires name in FIXED_NAMES
    ensures FixedOnly(t, DropDevice(t, name))
  {
    if NoFixedDevice(t) {
      assert DropDevice(t, name) == t;
    }
  }

  lemma {:induction false} RenameIsFixedOnly(t: Table, from: string, to: string)
    requires from in FIXED_NAMES
    ensures FixedOnly(t, RenameIn(t, from, to))
  {
    if NoFixedDevice(t) {
      assert RenameIn(t, from, to) == t;
    }
  }

  lemma {:induction false} RemovedIsDevicesOnly(n: Net, name: string)
    requires name in FIXED_NAMES
    ensures DevicesOnly(n, LinkRemoved(n, name))
  {
    var n' := LinkRemoved(n, name);
    forall t
      ensures FixedOnly(n.v4.TableOf(t), n'.v4.TableOf(t)) && FixedOnly(n.v6.TableOf(t), n'.v6.TableOf(t))
    {
      DropIsFixedOnly(n.v4.TableOf(t), name);
      DropIsFixedOnly(n.v6.TableOf(t), name);
    }
  }

  lemma {:induction false} RenamedIsDevicesOnly(n: Net, from: string, to: string)
    requires from in n.links && from in FIXED_NAMES && to in FIXED_NAMES && forall f :: IpipName(f) != to
    ensures DevicesOnly(n, LinkRenamed(n, from, to))
  {
    var n' := LinkRenamed(n, from, to);
    forall t
      ensures FixedOnly(n.v4.TableOf(t), n'.v4.TableOf(t)) && FixedOnly(n.v6.TableOf(t), n'.v6.TableOf(t))
    {
      RenameIsFixedOnly(n.v4.TableOf(t), from, to);
      RenameIsFixedOnly(n.v6.TableOf(t), from, to);
    }
  }

  /** The families whose flow-based device exists. */
  function Receivers(n: Net): set<Family> {
    (if IpipName(V4) in n.links then {V4} else {}) + (if IpipName(V6) in n.links then {V6} else {})
  }

  function WithTunnel(h: Hash, n: Net, a: IP): Net {
    n.(links := n.links[FouName(h, a) := Tunnel(a)])
  }

  /** A fallback device is there and the name it is to be given is taken. */
  predicate Clash(n: Net, f: Family) {
    Fallback(f) in n.links && Retired(f) in n.links
  }

  /** A successful AddPeer. A call that creates the link leaves the receive device of the peer's family, and
      without kernel faults no other. */
  ghost predicate PeerAdded(h: Hash, n: Net, n': Net, a: IP, clean: bool) {
    if FouName(h, a) in n.links then n' == n
    else
      && DevicesOnly(WithTunnel(h, n, a), n') && a.family in Receivers(n')
      && (clean ==> Receivers(n') == {a.family})
  }

  /** What a failed AddPeer can leave: nothing new, or the link with any receive devices. */
  ghost predicate PeerCut(h: Hash, n: Net, n': Net, a: IP) {
    n' == n || (FouName(h, a) !in n.links && DevicesOnly(WithTunnel(h, n, a), n'))
  }

  /** The link is to be created and the fallback device of its family is in the way. */
  predicate PeerClash(h: Hash, n: Net, a: IP) {
    FouName(h, a) !in n.links && Clash(n, a.family)
  }

  lemma {:induction false} TunnelCreated(h: Hash, n: Net, n': Net, a: IP)
    requires FouName(h, a) !in n.links
    requires || n' == WithTunnel(h, n, a)
             || (Fallback(a.family) !in n.links && Retired(a.family) !in n.links
                 && n' == n.(links := n.links[FouName(h, a) := Tunnel(a)][Fallback(a.family) := Other]))
    ensures DevicesOnly(WithTunnel(h, n, a), n')
    ensures forall f :: Clash(n', f) <==> Clash(n, f)
  {
    FouNameNotFixed(h, a);
  }

  function PeerRemoved(h: Hash, n: Net, a: IP): Net {
    if FouName(h, a) in n.links then LinkRemoved(n, FouName(h, a)) else n
  }

  class FouTunnel {
    const local4: bool
    const local6: bool
    const hash: Hash

    constructor (local4: bool, local6: bool, hash: Hash)
      ensures this.local4 == local4 && this.local6 == local6 && this.hash == hash
    {
      this.local4, this.local6, this.hash := local4, local6, hash;
    }

    predicate Supports(f: Family) {
      if f.V4? then local4 else local6
    }

    /** Opens the listening ports, once. */
    method Init(host: Host) returns (err: bool)
      requires host.Valid()
      modifies host
      ensures host.Valid() && old(host.faults) <= host.faults
      ensures Attempt(FouSteps(local4, local6), Boot(old(host.setup), FOU_DUMMY in old(host.net).links),
                      Boot(host.setup, FOU_DUMMY in host.net.links), err, host.faults == old(host.faults))
      ensures OnlyMarked(old(host.net), host.net, FOU_DUMMY)
    {
      err := InitOnce(host, FouSteps(local4, local6), FOU_DUMMY);
    }

    method RemoveDevice(host: Host, name: string) returns (err: bool)
      requires host.Valid() && name in FIXED_NAMES
      modifies host`net, host`faults
      ensures host.Valid() && old(host.faults) <= host.faults
      ensures DevicesOnly(old(host.net), host.net)
      ensures host.net == old(host.net) || host.net == LinkRemoved(old(host.net), name)
      ensures host.faults == old(host.faults) ==> !err && name !in host.net.links
      ensures err ==> host.faults != old(host.faults)
    {
      RemovedIsDevicesOnly(host.net, name);
      var e := host.LinkByName(name);
      if !e.Ok? {
        return false;
      }
      e := host.LinkDel(name);
      err := !e.Ok?;
    }

    method RenameDevice(host: Host, from: string, to: string) returns (err: bool)
      requires host.Valid() && from in FIXED_NAMES && to in FIXED_NAMES && from != to && forall f :: IpipName(f) != to
      modifies host`net, host`faults
      ensures host.Valid() && old(host.faults) <= host.faults
      ensures DevicesOnly(old(host.net), host.net)
      ensures forall x | x != from && x != to :: x in host.net.links <==> x in old(host.net).links
      ensures from in host.net.links && to in host.net.links ==> from in old(host.net).links && to in old(host.net).links
      ensures host.faults == old(host.faults) ==> (err <==> from in old(host.net).links && to in old(host.net).links)
      ensures host.faults == old(host.faults) && !err ==> from !in host.net.links
    {
      if from in host.net.links {
        RenamedIsDevicesOnly(host.net, from, to);
      }
      var e := host.LinkByName(from);
      if !e.Ok? {
        return false;
      }
      e := host.LinkSetName(from, to);
      err := !e.Ok?;
    }

    method SetupDevice(host: Host, f: Family) returns (err: bool)
      requires host.Valid()
      modifies host`net, host`faults
      ensures host.Valid() && old(host.faults) <= host.faults
      ensures DevicesOnly(old(host.net), host.net)
      ensures !err ==> IpipName(f) in host.net.links
      ensures forall x | x != IpipName(f) && x != Fallback(f) :: x in host.net.links <==> x in old(host.net).links
      ensures Clash(host.net, f) <==> Clash(old(host.net), f)
      ensures err ==> host.faults != old(host.faults)
    {
      var e := host.LinkByName(IpipName(f));
      if !e.Ok? {
        e := host.LinkAdd(IpipName(f), FlowBased(f), f);
        if !e.Ok? {
          return true;
        }
        e := host.LinkByName(IpipName(f));
        if !e.Ok? {
          return true;
        }
      }
      e := host.LinkSetUp(IpipName(f));
      err := !e.Ok?;
    }

    /** The part of setupIPIPDevices for one family: set up and rename the fallback, or remove. */
    method SetupOrRemove(host: Host, f: Family, wanted: bool) returns (err: bool)
      requires host.Valid()
      modifies host`net, host`faults
      ensures host.Valid() && old(host.faults) <= host.faults
      ensures DevicesOnly(old(host.net), host.net)
      ensures !err && wanted ==> IpipName(f) in host.net.links
      ensures host.faults == old(host.faults) ==> (IpipName(f) in host.net.links <==> wanted)
      ensures forall g | g != f :: IpipName(g) in host.net.links <==> IpipName(g) in old(host.net).links
      ensures host.faults == old(host.faults) ==> (err <==> wanted && Clash(old(host.net), f))
      ensures host.faults == old(host.faults) && !err ==> forall g :: Clash(host.net, g) <==> Clash(old(host.net), g)
      ensures forall g | g != f :: Clash(host.net, g) <==> Clash(old(host.net), g)
      ensures forall g | Clash(host.net, g) :: Clash(old(host.net), g)
    {
      if wanted {
        err := SetupDevice(host, f);
        if err {
          return;
        }
        ghost var n1 := host.net;
        err := RenameDevice(host, Fallback(f), Retired(f));
        DevicesOnlyTrans(old(host.net), n1, host.net);
      } else {
        err := RemoveDevice(host, IpipName(f));
      }
    }

    /** Leaves the receive devices of the requested families and no other. */
    method SetupIPIPDevices(host: Host, ipv4: bool, ipv6: bool) returns (err: bool)
      requires host.Valid()
      modifies host`net, host`faults
      ensures host.Valid() && old(host.faults) <= host.faults
      ensures DevicesOnly(old(host.net), host.net)
      ensures !err ==> (if ipv4 then {V4} else {}) + (if ipv6 then {V6} else {}) <= Receivers(host.net)
      ensures !err && host.faults == old(host.faults) ==>
                && Receivers(host.net) == (if ipv4 then {V4} else {}) + (if ipv6 then {V6} else {})
                && forall f :: Clash(host.net, f) <==> Clash(old(host.net), f)
      ensures forall f | Clash(host.net, f) :: Clash(old(host.net), f)
      ensures host.faults == old(host.faults) ==>
                (err <==> (ipv4 && Clash(old(host.net), V4)) || (ipv6 && Clash(old(host.net), V6)))
    {
      err := SetupOrRemove(host, V4, ipv4);
      if err {
        return;
      }
      ghost var n1 := host.net;
      err := SetupOrRemove(host, V6, ipv6);
      DevicesOnlyTrans(old(host.net), n1, host.net);
    }

    /** The tunnel link to a peer, created if it is not there. Without kernel faults it fails exactly when the
        link is to be created and the family's fallback device cannot be renamed. */
    method AddPeer(host: Host, a: IP) returns (e: PeerErr, link: string)
      requires host.Valid()
      modifies host`net, host`faults
      ensures host.Valid() && old(host.faults) <= host.faults
      ensures e.FamilyMismatch? <==> !(if a.family.V4? then local4 else local6)
      ensures e.FamilyMismatch? ==> host.net == old(host.net) && host.faults == old(host.faults)
      ensures forall f | Clash(host.net, f) :: Clash(old(host.net), f)
      ensures e.PeerOk? ==> link == FouName(hash, a) && link in host.net.links
                            && PeerAdded(hash, old(host.net), host.net, a, host.faults == old(host.faults))
      ensures e.PeerFailed? ==> PeerCut(hash, old(host.net), host.net, a)
      ensures e.PeerFailed? && host.faults == old(host.faults) ==> PeerClash(hash, old(host.net), a)
      ensures e.PeerOk? && host.faults == old(host.faults) ==>
                && !PeerClash(hash, old(host.net), a)
                && forall f :: Clash(host.net, f) <==> Clash(old(host.net), f)
    {
      link := "";
      if !Supports(a.family) {
        return FamilyMismatch, link;
      }
      var name := FouName(hash, a);
      FouNameNotFixed(hash, a);
      var r := host.LinkByName(name);
      if r.Ok? {
        return PeerOk, name;
      }
      if !r.NotFound? {
        return PeerFailed, link;
      }
      ghost var n0 := host.net;
      r := host.LinkAdd(name, Tunnel(a), a.family);
      if !r.Ok? {
        return PeerFailed, link;
      }
      ghost var n1 := host.net;
      TunnelCreated(hash, n0, n1, a);
      var err := SetupIPIPDevices(host, a.family.V4?, a.family.V6?);
      DevicesOnlyTrans(WithTunnel(hash, n0, a), n1, host.net);
      if err {
        return PeerFailed, link;
      }
      r := host.LinkByName(name);
      if !r.Ok? {
        return PeerFailed, link;
      }
      e, link := PeerOk, name;
    }

    /** Deletes the tunnel link of a peer, if any. */
    method DelPeer(host: Host, a: IP) returns (err: bool)
      requires host.Valid()
      modifies host`net, host`faults
      ensures host.Valid() && old(host.faults) <= host.faults
      ensures !err ==> host.net == PeerRemoved(hash, old(host.net), a) && host.faults == old(host.faults)
      ensures err ==> host.net == old(host.net) && host.faults != old(host.faults)
    {
      var name := FouName(hash, a);
      var r := host.LinkByName(name);
      if r.Ok? {
        r := host.LinkDel(name);
        return !r.Ok?;
      }
      err := !r.NotFound?;
    }
  }

  // ---- runs of peer operations -------------------------------------------------------------------

  datatype PeerOp = Add(peer: IP) | Del(peer: IP)

  ghost predicate PeerStep(h: Hash, n: Net, n': Net, op: PeerOp) {
    match op
    case Add(a) => PeerAdded(h, n, n', a, true)
    case Del(a) => n' == PeerRemoved(h, n, a)
  }

  /** A run of peer operations; `net` is the state reached. */
  datatype PeerTrace =
    | Begin(net: Net)
    | Next(before: PeerTrace, op: PeerOp, net: Net)

  ghost predicate CleanRun(h: Hash, t: PeerTrace) {
    t.Next? ==> CleanRun(h, t.before) && PeerStep(h, t.before.net, t.net, t.op)
  }

  /** The last step created a link. */
  predicate Creates(h: Hash, t: PeerTrace) {
    t.Next? && t.op.Add? && FouName(h, t.op.peer) !in t.before.net.links
  }

  /** The family of the peer whose link was created last, if any link was created. */
  function LastCreated(h: Hash, t: PeerTrace): Option<Family> {
    if t.Begin? then None
    else if Creates(h, t) then Some(t.op.peer.family)
    else LastCreated(h, t.before)
  }

  lemma {:induction false} QuietStepKeepsReceivers(h: Hash, t: PeerTrace)
    requires t.Next? && PeerStep(h, t.before.net, t.net, t.op) && !Creates(h, t)
    ensures Receivers(t.net) == Receivers(t.before.net)
  {
  }

  /** A new tunnel's receive device is a flow-based tunnel of its family, or a device of that name found before; so
      devices that are true stay true. */
  lemma {:induction false} StepKeepsDevices(h: Hash, n: Net, n': Net, op: PeerOp)
    requires LooseStep(h, n, n', op) && TrueDevices(n)
    ensures TrueDevices(n')
  {
    FouNameNotFixed(h, op.peer);
    forall f | IpipName(f) in n'.links
      ensures n'.links[IpipName(f)] == FlowBased(f)
    {
      assert IpipName(f) in FIXED_NAMES;
      assert op.Add? && n' != n ==> DeviceOr(WithTunnel(h, n, op.peer), n', f);
    }
  }

  /** Over every run of peer operations with failures anywhere, every receive device is a flow-based tunnel of its
      family. */
  lemma {:induction false} DevicesStayTrue(h: Hash, t: PeerTrace, used: set<IP>)
    requires LooseRun(h, t, used) && TrueDevices(Origin(t))
    ensures TrueDevices(t.net)
  {
    if t.Next? {
      DevicesStayTrue(h, t.before, used);
      StepKeepsDevices(h, t.before.net, t.net, t.op);
    }
  }

  lemma {:induction false} CleanIsLoose(h: Hash, n: Net, n': Net, op: PeerOp)
    requires PeerStep(h, n, n', op)
    ensures LooseStep(h, n, n', op)
  {
  }

  /** After a run without faults, the receive devices are those of the most recently created peer alone, and true if
      those at the start were. */
  lemma {:induction false} LastCreatedWins(h: Hash, t: PeerTrace)
    requires CleanRun(h, t)
    ensures LastCreated(h, t).Some? ==> Receivers(t.net) == {LastCreated(h, t).value}
    ensures LastCreated(h, t).None? ==> Receivers(t.net) == Receivers(Origin(t))
    ensures TrueDevices(Origin(t)) ==> TrueDevices(t.net)
  {
    if t.Next? {
      LastCreatedWins(h, t.before);
      CleanIsLoose(h, t.before.net, t.net, t.op);
      if TrueDevices(t.before.net) {
        StepKeepsDevices(h, t.before.net, t.net, t.op);
      }
    }
    if t.Next? && !Creates(h, t) {
      QuietStepKeepsReceivers(h, t);
    }
  }

  /** Two peers of different families: the first one's receive device is gone. */
  lemma {:induction false} DualStackLosesReceiver(h: Hash, n0: Net, n1: Net, n2: Net, a: IP, b: IP)
    requires a.family.V4? && b.family.V6?
    requires FouName(h, a) !in n0.links && FouName(h, b) !in n0.links
    requires PeerAdded(h, n0, n1, a, true) && PeerAdded(h, n1, n2, b, true)
    ensures IpipName(V4) in n1.links && IpipName(V4) !in n2.links && FouName(h, a) in n2.links
  {
    FouNameInjective(h, a, b);
    FouNameNotFixed(h, a);
    FouNameNotFixed(h, b);
    assert V4 in Receivers(n1) && V4 !in Receivers(n2);
  }

  // ---- links lead where their names say ------------------------------------------------------------

  /** A link named after an address of the set is the tunnel to that address. */
  ghost predicate TrueNames(h: Hash, n: Net, used: set<IP>) {
    forall a | a in used && FouName(h, a) in n.links :: n.links[FouName(h, a)] == Tunnel(a)
  }

  /** A peer operation that may have failed at any point. */
  ghost predicate LooseStep(h: Hash, n: Net, n': Net, op: PeerOp) {
    match op
    case Add(a) => PeerCut(h, n, n', a)
    case Del(a) => n' == n || n' == PeerRemoved(h, n, a)
  }

  ghost predicate LooseRun(h: Hash, t: PeerTrace, used: set<IP>) {
    t.Next? ==> LooseRun(h, t.before, used) && t.op.peer in used && LooseStep(h, t.before.net, t.net, t.op)
  }

  function Origin(t: PeerTrace): Net {
    if t.Begin? then t.net else Origin(t.before)
  }

  lemma {:induction false} StepKeepsNames(h: Hash, n: Net, n': Net, op: PeerOp, used: set<IP>)
    requires NoCollision(h, used) && op.peer in used && TrueNames(h, n, used) && LooseStep(h, n, n', op)
    ensures TrueNames(h, n', used)
  {
    forall b | b in used && FouName(h, b) in n'.links
      ensures n'.links[FouName(h, b)] == Tunnel(b)
    {
      FouNameNotFixed(h, b);
      FouNameInjective(h, b, op.peer);
    }
  }

  /** Over every run of peer operations on addresses without digest collisions, with failures anywhere, the
      link that AddPeer finds or creates for an address leads to that address. */
  lemma {:induction false} NamesStayTrue(h: Hash, t: PeerTrace, used: set<IP>)
    requires LooseRun(h, t, used) && NoCollision(h, used) && TrueNames(h, Origin(t), used)
    ensures TrueNames(h, t.net, used)
  {
    if t.Next? {
      NamesStayTrue(h, t.before, used);
      StepKeepsNames(h, t.before.net, t.net, t.op, used);
    }
  }

  /** With a collision the second peer is handed the first one's tunnel. */
  lemma {:induction false} CollisionMisroutes(h: Hash, n0: Net, n1: Net, n2: Net, a: IP, b: IP)
    requires a.family.V6? && b.family.V6? && a != b && h(a.bits) == h(b.bits)
    requires FouName(h, a) !in n0.links && PeerAdded(h, n0, n1, a, true) && PeerAdded(h, n1, n2, b, true)
    ensures FouName(h, b) in n2.links && n2.links[FouName(h, b)] == Tunnel(a)
  {
    FouNameInjective(h, a, b);
    FouNameNotFixed(h, a);
  }

  /** The names of devices and markers as an operator sees them. */
  lemma DeviceNames(f: Family)
    ensures IpipName(f) == (if f.V4? then "egress_ipip4" else "egress_ipip6")
    ensures Fallback(f) == (if f.V4? then "tunl0" else "ip6tnl0")
    ensures Retired(f) == (if f.V4? then "egress_tunl" else "egress_ip6tnl")
    ensures FOU_DUMMY == "fou-dummy" && EGRESS_DUMMY == "egress-dummy"
  {
  }
}
