/** The pod watcher of an egress gateway. */
module PodWatchers {
  import opened Cidr
  import opened Kernel
  import opened LinkNames
  import opened FouTunnels
  import Bootstrap
  import opened Gateways
  import opened ReceiveDevices
  import opened WatcherModel
  import Annotations

  datatype Phase = Pending | Running | Succeeded | Failed | Unknown

  /** What the API server answers for a pod. `Unreadable` is an error other than "not found". */
  datatype Answer = Found(pod: Annotations.Pod, phase: Phase, ips: seq<IP>) | Missing | Unreadable

  predicate Terminated(p: Phase) {
    p.Succeeded? || p.Failed?
  }

  class PodWatcher {
    const myNS: string
    const myName: string
    const host: Host
    const ft: FouTunnel
    const eg: EgressNat
    /** The addresses that occur in the run. */
    ghost const used: set<IP>

    var podAddrs: map<string, seq<IP>>
    var peers: map<IP, set<string>>
    var gauge: int

    ghost function Families(): set<Family> {
      (if ft.local4 then {V4} else {}) + (if ft.local6 then {V6} else {})
    }

    ghost predicate Valid()
      reads this, host
    {
      && host.Valid() && WellFormed(ft.hash, host.net, used)
      && eg.ipv4 == ft.local4 && eg.ipv6 == ft.local6
      && forall key | key in podAddrs :: forall a | a in podAddrs[key] :: a in used
    }

    ghost function State(): World
      reads this, host
    {
      World(podAddrs, peers, Tunnels(ft.hash, host.net, used), Routed(host.net, used), gauge)
    }

    constructor (ns: string, name: string, host: Host, ft: FouTunnel, eg: EgressNat, ghost used: set<IP>)
      requires host.Valid() && WellFormed(ft.hash, host.net, used)
      requires eg.ipv4 == ft.local4 && eg.ipv6 == ft.local6
      ensures Valid() && this.host == host && this.ft == ft && this.eg == eg && this.used == used
      ensures myNS == ns && myName == name
      ensures State() == World(map[], map[], Tunnels(ft.hash, host.net, used), Routed(host.net, used), 0)
    {
      myNS, myName := ns, name;
      this.host, this.ft, this.eg, this.used := host, ft, eg, used;
      podAddrs, peers, gauge := map[], map[], 0;
    }

    method OpenTunnel(a: IP) returns (e: PeerErr, link: string)
      requires Valid() && a in used
      modifies host`net, host`faults
      ensures Valid() && old(host.faults) <= host.faults
      ensures e.FamilyMismatch? <==> a.family !in Families()
      ensures e.PeerOk? ==> link == FouName(ft.hash, a) && a in State().tunnels
      ensures State() == old(State()) || State() == old(State()).(tunnels := old(State()).tunnels + {a})
      ensures e.FamilyMismatch? ==> host.net == old(host.net)
      ensures Tried(ft.hash, old(Devs(host.net)), Devs(host.net), a)
      ensures e.PeerOk? ==> FouName(ft.hash, a) in Devs(host.net).up
      ensures e.PeerOk? && host.faults == old(host.faults) ==>
                Devs(host.net) == AfterPeer(ft.hash, old(Devs(host.net)), a)
      ensures ClashTurn(ft.hash, old(host.net), host.net, a, a.family in Families(), !e.PeerFailed?,
                        host.faults == old(host.faults))
    {
      ghost var n0, f0 := host.net, host.faults;
      e, link := ft.AddPeer(host, a);
      if host.net != n0 {
        TunnelAdded(ft.hash, n0, host.net, used, a);
      }
      if e.PeerOk? {
        PeerAddedDevs(ft.hash, n0, host.net, a, host.faults == f0);
      } else {
        PeerCutDevs(ft.hash, n0, host.net, a);
      }
    }

    method OpenRoute(a: IP, link: string) returns (e: ClientErr)
      requires Valid() && a in State().tunnels && link == FouName(ft.hash, a) && a.family in Families()
      modifies host`net, host`faults
      ensures Valid() && old(host.faults) <= host.faults && host.net.links == old(host.net).links
      ensures e.ClientOk? ==> State() == old(State()).(routed := old(State()).routed + {a})
      ensures !e.ClientOk? ==> State() == old(State()) && host.faults != old(host.faults)
    {
      ghost var n0 := host.net;
      SameBaseIsRouted(ft.hash, n0, used, a);
      e := eg.AddClient(host, a, link);
      assert SameBase(n0.Of(a.family).TableOf(Bootstrap.RETURN_TABLE), a) <==> a in Routed(n0, used);
      if e.ClientOk? {
        ClientAdded(ft.hash, n0, host.net, used, a);
      }
    }

    /** Creates the tunnel and the return route of one new address. */
    method Connect(a: IP) returns (out: Outcome)
      requires Valid() && a in used
      modifies host`net, host`faults
      ensures Valid() && old(host.faults) <= host.faults
      ensures out == Done || out == AddFailed
      ensures Between(old(State()), State(), if a.family in Families() then {a} else {})
      ensures out == Done ==> State() == Plus(old(State()), if a.family in Families() then {a} else {})
      ensures a.family !in Families() ==> out == Done && Devs(host.net) == old(Devs(host.net))
      ensures a.family in Families() ==> PeerTurn(ft.hash, old(Devs(host.net)), Devs(host.net), a, out,
                                                  host.faults == old(host.faults))
      ensures ClashTurn(ft.hash, old(host.net), host.net, a, a.family in Families(), out == Done,
                        host.faults == old(host.faults))
    {
      var e, link := OpenTunnel(a);
      if e.FamilyMismatch? {
        return Done;
      }
      if !e.PeerOk? {
        return AddFailed;
      }
      var c := OpenRoute(a, link);
      out := if c.ClientOk? then Done else AddFailed;
    }

    /** Deletes the tunnel of one address, and with it the return route. */
    method Disconnect(a: IP) returns (err: bool)
      requires Valid() && a in used
      modifies host`net, host`faults
      ensures Valid() && old(host.faults) <= host.faults
      ensures State() == if err then old(State()) else Minus(old(State()), {a})
      ensures err ==> host.faults != old(host.faults)
      ensures forall f | Clash(host.net, f) :: Clash(old(host.net), f)
      ensures Devs(host.net).recv == old(Devs(host.net)).recv
      ensures Devs(host.net).up == old(Devs(host.net)).up - (if err then {} else {FouName(ft.hash, a)})
    {
      TunnelRemoved(ft.hash, host.net, used, a);
      FouNameNotFixed(ft.hash, a);
      err := ft.DelPeer(host, a);
    }

    /** The first loop of addPod: connects the addresses the pod did not have before. */
    method ConnectNew(key: string, existing: seq<IP>, podIPs: seq<IP>) returns (out: Outcome)
      requires Valid() && existing == Listed(State(), key) && forall a | a in podIPs :: a in used
      modifies host`net, host`faults
      ensures Valid() && old(host.faults) <= host.faults
      ensures out == Done || out == AddFailed
      ensures Between(old(State()), State(), Adds(old(State()), key, podIPs, Families()))
      ensures out == Done ==> State() == Plus(old(State()), Adds(old(State()), key, podIPs, Families()))
      ensures TodoCut(ft.hash, old(Devs(host.net)), Devs(host.net), Todo(existing, Families(), podIPs))
      ensures out == Done ==> Passed(ft.hash, old(Devs(host.net)), Devs(host.net), Todo(existing, Families(), podIPs),
                                     host.faults == old(host.faults))
      ensures forall f | Clash(host.net, f) :: Clash(old(host.net), f)
      ensures host.faults == old(host.faults) ==>
                (out == Done <==> forall a | a in Todo(existing, Families(), podIPs) ::
                                    !PeerClash(ft.hash, old(host.net), a))
    {
      ghost var w, h, families, n0 := State(), ft.hash, Families(), host.net;
      ghost var adds: set<IP> := {};
      PlusNothing(w);
      NothingTurned(h, n0, existing, families, podIPs);
      for i := 0 to |podIPs|
        invariant Valid() && old(host.faults) <= host.faults
        invariant adds == Adds(w, key, podIPs[..i], families) && State() == Plus(w, adds)
        invariant Connecting(h, n0, host.net, existing, families, podIPs, i, host.faults == old(host.faults))
      {
        AddsGrow(w, key, podIPs, i, families);
        if podIPs[i] in existing {
          TurnSkipped(h, n0, host.net, existing, families, podIPs, i, host.faults == old(host.faults));
          continue;
        }
        ghost var extra := if podIPs[i].family in families then {podIPs[i]} else {};
        ghost var n1, f1 := host.net, host.faults;
        out := Connect(podIPs[i]);
        TurnTaken(h, n0, n1, host.net, existing, families, podIPs, i, out, f1 == old(host.faults), host.faults == f1);
        if out != Done {
          BetweenGrows(w, State(), adds, extra, Adds(w, key, podIPs, families));
          return;
        }
        PlusPlus(w, adds, extra);
        adds := adds + extra;
      }
      assert podIPs[..|podIPs|] == podIPs;
      AllTurned(h, n0, host.net, existing, families, podIPs, host.faults == old(host.faults));
      out := Done;
    }

    /** The second loop of addPod: deletes the tunnels of addresses the pod no longer has, without a look
        at the index. */
    method DisconnectOld(key: string, existing: seq<IP>, podIPs: seq<IP>) returns (err: bool, ghost gone: set<IP>)
      requires Valid() && existing == Listed(State(), key)
      modifies host`net, host`faults
      ensures Valid() && old(host.faults) <= host.faults
      ensures State() == Minus(old(State()), gone) && gone <= Drops(old(State()), key, podIPs)
      ensures !err ==> gone == Drops(old(State()), key, podIPs)
      ensures Devs(host.net).recv == old(Devs(host.net)).recv
      ensures Devs(host.net).up == old(Devs(host.net)).up - NameSet(ft.hash, gone)
      ensures err ==> host.faults != old(host.faults)
      ensures forall f | Clash(host.net, f) :: Clash(old(host.net), f)
    {
      ghost var w, up := State(), Devs(host.net).up;
      gone := {};
      MinusNothing(w);
      assert up - NameSet(ft.hash, {}) == up;
      for i := 0 to |existing|
        invariant Valid() && State() == Minus(w, gone) && old(host.faults) <= host.faults
        invariant gone == NotAmong(existing[..i], podIPs)
        invariant Devs(host.net).recv == old(Devs(host.net)).recv
        invariant Devs(host.net).up == up - NameSet(ft.hash, gone)
        invariant forall f | Clash(host.net, f) :: Clash(old(host.net), f)
      {
        NotAmongGrows(existing, podIPs, i);
        if existing[i] in podIPs {
          continue;
        }
        assert existing[i] in existing;
        err := Disconnect(existing[i]);
        if err {
          assert gone <= NotAmong(existing, podIPs) == Drops(w, key, podIPs);
          return;
        }
        MinusMinus(w, gone, {existing[i]});
        NameSetGrows(ft.hash, gone, existing[i], up);
        gone := gone + {existing[i]};
      }
      assert existing[..|existing|] == existing;
      assert NotAmong(existing, podIPs) == Drops(w, key, podIPs);
      err := false;
    }

    /** The third part of addPod: records the addresses. */
    method Record(key: string, podIPs: seq<IP>)
      requires Valid() && forall a | a in podIPs :: a in used
      modifies this
      ensures Valid()
      ensures State() == old(State()).(podAddrs := old(podAddrs)[key := podIPs],
                                       peers := Register(old(peers), key, podIPs),
                                       gauge := |old(podAddrs)[key := podIPs]|)
    {
      podAddrs := podAddrs[key := podIPs];
      ghost var p0 := peers;
      RegisterNothing(p0, key);
      assert podIPs[..0] == [];
      for i := 0 to |podIPs|
        invariant peers == Register(p0, key, podIPs[..i])
        invariant podAddrs == old(podAddrs)[key := podIPs] && gauge == old(gauge)
      {
        RegisterStep(p0, key, podIPs, i);
        var keySet := if podIPs[i] in peers then peers[podIPs[i]] else {};
        peers := peers[podIPs[i] := keySet + {key}];
      }
      assert podIPs[..|podIPs|] == podIPs;
      gauge := |podAddrs|;
    }

    /** Adds or updates a pod. Without kernel faults it completes exactly when no new address of the gateway's families
        finds a fallback device in the way, and a completed call leaves the receive device of the address whose link
        it created last. */
    method AddPod(key: string, podIPs: seq<IP>) returns (out: Outcome)
      requires Valid() && forall a | a in podIPs :: a in used
      modifies this, host`net, host`faults
      ensures Valid() && old(host.faults) <= host.faults
      ensures AddStep(old(State()), State(), key, podIPs, Families(), out)
      ensures TodoCut(ft.hash, old(Devs(host.net)), Devs(host.net), Todo(Listed(old(State()), key), Families(), podIPs))
      ensures out == Done && host.faults == old(host.faults) ==>
                Receivers(host.net)
                == AfterPeers(ft.hash, old(Devs(host.net)), Todo(Listed(old(State()), key), Families(), podIPs)).recv
      ensures forall f | Clash(host.net, f) :: Clash(old(host.net), f)
      ensures host.faults == old(host.faults) ==>
                (out == Done <==> forall a | a in podIPs && a !in Listed(old(State()), key) && a.family in Families() ::
                                    !PeerClash(ft.hash, old(host.net), a))
    {
      ghost var w, d := State(), Devs(host.net);
      var existing := if key in podAddrs then podAddrs[key] else [];
      TodoMembers(existing, Families(), podIPs);
      out := ConnectNew(key, existing, podIPs);
      if out != Done {
        CutWhileAdding(w, State(), key, podIPs, Families());
        return;
      }
      ghost var d1 := Devs(host.net);
      var err;
      ghost var gone;
      err, gone := DisconnectOld(key, existing, podIPs);
      DropsKeepCut(ft.hash, used, d, d1, Devs(host.net), gone, existing, Families(), podIPs);
      AddCompletes(w, key, podIPs, Families(), gone);
      if err {
        return DelFailed;
      }
      Record(key, podIPs);
    }

    /** The work queue repeats a failed request. Every attempt that does not complete met a kernel fault, unless an
        address to be connected found a fallback device in the way from the start. Whenever the pod is added at last,
        lists, index, tunnels and return routes are those of one uninterrupted call. The receive devices are, after a
        last attempt without kernel faults, if and only if that attempt still had a link to create or found them
        right (`found`). */
    method RetryAddPod(key: string, podIPs: seq<IP>, tries: nat)
      returns (out: Outcome, ghost found: Devices, ghost clean: bool)
      requires Valid() && forall a | a in podIPs :: a in used
      modifies this, host`net, host`faults
      ensures Valid()
      ensures out == Done ==> State() == AfterAdd(old(State()), key, podIPs, Families())
      ensures out == Done && clean ==>
                var todo := Todo(Listed(old(State()), key), Families(), podIPs);
                var heard := AfterPeers(ft.hash, old(Devs(host.net)), todo).recv;
                Receivers(host.net) == heard <==> (Names(ft.hash, todo) <= found.up ==> found.recv == heard)
      ensures out != Done ==>
                || host.faults >= old(host.faults) + tries
                || exists a | a in podIPs && a !in Listed(old(State()), key) && a.family in Families() ::
                     PeerClash(ft.hash, old(host.net), a)
    {
      ghost var w, todo := State(), Todo(Listed(State(), key), Families(), podIPs);
      ghost var t: Trace, u: Attempts := Start(State()), Before(Devs(host.net));
      ghost var n0 := host.net;
      TodoMembers(Listed(w, key), Families(), podIPs);
      out, found, clean := AddFailed, Devs(host.net), false;
      for i := 0 to tries
        invariant Valid()
        invariant IsRun(t, Families()) && FailedAttempts(t, key, podIPs) && First(t) == w && t.world == State()
        invariant podAddrs == w.podAddrs && AllCut(ft.hash, u, todo) && FirstDevs(u) == old(Devs(host.net))
        invariant u.devs == Devs(host.net) && out != Done
        invariant forall f | Clash(host.net, f) :: Clash(n0, f)
        invariant host.faults >= old(host.faults) + i || exists a | a in todo :: PeerClash(ft.hash, n0, a)
      {
        found := Devs(host.net);
        RetriesConverge(t, key, podIPs, Families());
        AttemptsAreCut(ft.hash, u, todo);
        RestartHeardIff(ft.hash, FirstDevs(u), found, todo);
        ghost var n1, f0 := host.net, host.faults;
        out := AddPod(key, podIPs);
        clean := host.faults == f0;
        if out != Done && clean {
          assert Devs(n0) == FirstDevs(u);
          ghost var a :| a in todo && PeerClash(ft.hash, n1, a);
          ClashWasThere(ft.hash, n0, n1, todo, a);
        }
        if out == Done {
          return;
        }
        t := Then(t, WatcherModel.AddPod(key, podIPs), out, State());
        u := Again(u, Devs(host.net));
      }
    }

    /** Whether another pod is indexed under the address; an error if this pod is not. */
    method ExistsOtherLivePeers(key: string, a: IP) returns (err: bool, others: bool)
      ensures err <==> !InIndex(peers, key, a)
      ensures !err ==> (others <==> peers[a] != {key})
    {
      if a in peers {
        var keySet := peers[a];
        if key in keySet {
          SizeAboveOne(keySet, key);
          return false, |keySet| > 1;
        }
        return true, false;
      }
      return true, false;
    }

    /** Releases one address: the tunnel goes if no other pod is indexed under it, then the index entry. */
    method ReleaseOne(key: string, a: IP, others: bool) returns (err: bool)
      requires Valid() && a in used && InIndex(peers, key, a) && (others <==> peers[a] != {key})
      modifies this, host`net, host`faults
      ensures Valid()
      ensures State() == if err then old(State()) else Released(old(State()), key, a)
      ensures old(host.faults) <= host.faults && (err ==> host.faults != old(host.faults))
    {
      err := false;
      if !others {
        err := Disconnect(a);
        if err {
          return;
        }
      }
      var keySet := peers[a] - {key};
      if keySet == {} {
        peers := peers - {a};
      } else {
        peers := peers[a := keySet];
      }
    }

    /** Releases the addresses of a pod in order; `n` of them are released at the end. */
    method ReleaseAll(key: string, addrs: seq<IP>) returns (out: Outcome, ghost n: nat)
      requires Valid() && forall a | a in addrs :: a in used
      modifies this, host`net, host`faults
      ensures Valid()
      ensures n <= |addrs| && AllIndexed(old(peers), key, addrs[..n])
      ensures State() == AfterRelease(old(State()), key, addrs[..n])
      ensures out == Done <==> n == |addrs|
      ensures out != Done ==> out == if InIndex(peers, key, addrs[n]) then DelFailed else NotIndexed
      ensures old(host.faults) <= host.faults && (out == DelFailed ==> host.faults != old(host.faults))
    {
      ghost var w := State();
      n := 0;
      ReleaseNothing(w, key);
      assert addrs[..0] == [];
      for i := 0 to |addrs|
        invariant Valid() && n == i
        invariant AllIndexed(w.peers, key, addrs[..n])
        invariant State() == AfterRelease(w, key, addrs[..n]) && old(host.faults) <= host.faults
      {
        var err, others := ExistsOtherLivePeers(key, addrs[i]);
        if err {
          return NotIndexed, n;
        }
        ReleaseStep(w, key, addrs, i);
        err := ReleaseOne(key, addrs[i], others);
        if err {
          return DelFailed, n;
        }
        n := n + 1;
      }
      out := Done;
    }

    /** Releases a pod. Without kernel faults it completes exactly when its addresses are distinct and all indexed. */
    method DelPeer(key: string) returns (out: Outcome)
      requires Valid()
      modifies this, host`net, host`faults
      ensures Valid() && old(host.faults) <= host.faults
      ensures DelStep(old(State()), State(), key, out)
      ensures host.faults == old(host.faults) ==> (out == Done <==> AllIndexed(old(peers), key, Listed(old(State()), key)))
    {
      ghost var w := State();
      var addrs := if key in podAddrs then podAddrs[key] else [];
      ghost var n;
      out, n := ReleaseAll(key, addrs);
      if out != Done {
        CutIsStep(w, State(), key, n, out);
        if out == NotIndexed {
          NotIndexedMeans(w, State(), key, n);
        }
        return;
      }
      assert addrs[..n] == addrs;
      DoneIsStep(w, key);
      ghost var released := State();
      podAddrs := podAddrs - {key};
      gauge := |podAddrs|;
      assert State() == released.(podAddrs := w.podAddrs - {key}, gauge := |w.podAddrs - {key}|);
    }

    method DelTerminatedPod(key: string) returns (out: Outcome)
      requires Valid()
      modifies this, host`net, host`faults
      ensures Valid() && old(host.faults) <= host.faults
      ensures DelStep(old(State()), State(), key, out)
      ensures host.faults == old(host.faults) ==> (out == Done <==> AllIndexed(old(peers), key, Listed(old(State()), key)))
    {
      out := DelPeer(key);
    }

    method DelPod(key: string) returns (out: Outcome)
      requires Valid()
      modifies this, host`net, host`faults
      ensures Valid() && old(host.faults) <= host.faults
      ensures DelStep(old(State()), State(), key, out)
      ensures host.faults == old(host.faults) ==> (out == Done <==> AllIndexed(old(peers), key, Listed(old(State()), key)))
    {
      out := DelPeer(key);
    }

    /** The event a reconcile request turns into. */
    ghost function EventOf(key: string, ans: Answer): Event {
      match ans
      case Found(pod, phase, ips) =>
        if !Annotations.Accepts(pod, myNS, myName) then NoEvent
        else if Terminated(phase) then WatcherModel.DelPod(key) else WatcherModel.AddPod(key, ips)
      case Missing => WatcherModel.DelPod(key)
      case Unreadable => NoEvent
    }

    ghost function Asked(requests: seq<(string, Answer)>): seq<Event> {
      if requests == [] then []
      else
        var k := |requests| - 1;
        Asked(requests[..k]) + [EventOf(requests[k].0, requests[k].1)]
    }

    /** One reconcile request is one step of the state machine. In plain terms: a completed request for an accepted
        pod that has not ended lists the pod with its addresses; one for an accepted pod that has ended, or for a
        missing pod, leaves it unlisted; any other request changes nothing. */
    method Reconcile(key: string, ans: Answer) returns (out: Outcome)
      requires Valid() && (ans.Found? ==> forall a | a in ans.ips :: a in used)
      modifies this, host`net, host`faults
      ensures Valid() && old(host.faults) <= host.faults
      ensures Step(old(State()), State(), EventOf(key, ans), out, Families())
      ensures ans.Found? && Annotations.Accepts(ans.pod, myNS, myName) && out == Done ==>
                if ans.phase.Succeeded? || ans.phase.Failed? then key !in podAddrs
                else key in podAddrs && podAddrs[key] == ans.ips
      ensures ans.Missing? && out == Done ==> key !in podAddrs
      ensures ans.Unreadable? || (ans.Found? && !Annotations.Accepts(ans.pod, myNS, myName)) ==>
                out == Done && State() == old(State()) && host.net == old(host.net)
      ensures SameBut(key, old(podAddrs), podAddrs) && (out == Done ==> Answered(podAddrs, myNS, myName, key, ans))
    {
      match ans
      case Found(pod, phase, ips) =>
        var mine := Annotations.ShouldHandle(pod, myNS, myName);
        if !mine {
          return Done;
        }
        if !Terminated(phase) {
          out := AddPod(key, ips);
        } else {
          out := DelTerminatedPod(key);
        }
      case Missing =>
        out := DelPod(key);
      case Unreadable =>
        out := Done;
    }

    /** Any sequence of requests is a run of the state machine, and the last completed request for a pod is what the
        watcher has recorded about it. */
    method Serve(requests: seq<(string, Answer)>) returns (ghost t: Trace, ghost outs: seq<Outcome>)
      requires Valid()
      requires forall i | 0 <= i < |requests| && requests[i].1.Found? :: forall a | a in requests[i].1.ips :: a in used
      modifies this, host`net, host`faults
      ensures Valid()
      ensures IsRun(t, Families()) && First(t) == old(State()) && t.world == State()
      ensures Events(t) == Asked(requests) && |outs| == |requests|
      ensures AllAnswered(requests, outs, podAddrs, myNS, myName)
    {
      t := Start(State());
      outs := [];
      for i := 0 to |requests|
        invariant Valid() && |outs| == i
        invariant IsRun(t, Families()) && First(t) == old(State()) && t.world == State()
        invariant Events(t) == Asked(requests[..i])
        invariant AllAnswered(requests, outs, podAddrs, myNS, myName)
      {
        assert requests[..i + 1][..i] == requests[..i];
        ghost var p0 := podAddrs;
        var out := Reconcile(requests[i].0, requests[i].1);
        t := Then(t, EventOf(requests[i].0, requests[i].1), out, State());
        AnsweredStep(requests, outs, out, p0, podAddrs, myNS, myName);
        outs := outs + [out];
      }
      assert requests[..|requests|] == requests;
    }
  }

  /** What a completed request has left, if no later one was for the same pod. */
  predicate Answered(p: map<string, seq<IP>>, ns: string, name: string, key: string, ans: Answer) {
    match ans
    case Found(pod, phase, ips) =>
      Annotations.Accepts(pod, ns, name) ==>
        if phase.Succeeded? || phase.Failed? then key !in p else key in p && p[key] == ips
    case Missing => key !in p
    case Unreadable => true
  }

  ghost predicate SameBut(key: string, p: map<string, seq<IP>>, q: map<string, seq<IP>>) {
    forall k | k != key :: (k in p <==> k in q) && (k in q ==> q[k] == p[k])
  }

  /** Every request that completed and was the last for its pod so far is recorded. */
  ghost predicate AllAnswered(
    requests: seq<(string, Answer)>, outs: seq<Outcome>, p: map<string, seq<IP>>, ns: string, name: string)
    requires |outs| <= |requests|
  {
    forall i | 0 <= i < |outs| && outs[i] == Done && LastFor(requests, i, |outs|) ::
      Answered(p, ns, name, requests[i].0, requests[i].1)
  }

  lemma {:induction false} AnsweredStep(
    requests: seq<(string, Answer)>, outs: seq<Outcome>, out: Outcome,
    p: map<string, seq<IP>>, q: map<string, seq<IP>>, ns: string, name: string)
    requires |outs| < |requests| && AllAnswered(requests, outs, p, ns, name)
    requires SameBut(requests[|outs|].0, p, q)
    requires out == Done ==> Answered(q, ns, name, requests[|outs|].0, requests[|outs|].1)
    ensures AllAnswered(requests, outs + [out], q, ns, name)
  {
    var n := |outs|;
    forall i | 0 <= i <= n && (outs + [out])[i] == Done && LastFor(requests, i, n + 1)
      ensures Answered(q, ns, name, requests[i].0, requests[i].1)
    {
      if i < n {
        assert requests[n].0 != requests[i].0;
        assert LastFor(requests, i, n);
        assert Answered(p, ns, name, requests[i].0, requests[i].1);
      }
    }
  }

  /** No request between `i` and `n` is for the same pod. */
  ghost predicate LastFor(requests: seq<(string, Answer)>, i: nat, n: nat)
    requires i < n <= |requests|
  {
    forall j | i < j < n :: requests[j].0 != requests[i].0
  }

  /** An accepted pod that has not ended. */
  predicate ToConnect(ans: Answer, ns: string, name: string) {
    ans.Found? && Annotations.Accepts(ans.pod, ns, name) && !ans.phase.Succeeded? && !ans.phase.Failed?
  }

  /** A new watcher in a namespace without tunnels, serving any requests. As long as the steps were benign, a pod
      whose last request was to be connected and completed has its tunnels and routes; as long as lists only grew
      the index, the kernel and the gauge are exact. */
  method ServeFromStart(ns: string, name: string, host: Host, ft: FouTunnel, eg: EgressNat, ghost used: set<IP>,
                        requests: seq<(string, Answer)>)
    returns (pw: PodWatcher, ghost t: Trace, ghost outs: seq<Outcome>)
    requires host.Valid() && WellFormed(ft.hash, host.net, used) && Tunnels(ft.hash, host.net, used) == {}
    requires eg.ipv4 == ft.local4 && eg.ipv6 == ft.local6
    requires forall i | 0 <= i < |requests| && requests[i].1.Found? :: forall a | a in requests[i].1.ips :: a in used
    modifies host`net, host`faults
    ensures fresh(pw) && pw.host == host && pw.ft == ft && pw.Valid()
    ensures IsRun(t, pw.Families()) && t.world == pw.State() && Events(t) == pw.Asked(requests)
    ensures |outs| == |requests|
    ensures AllAnswered(requests, outs, pw.podAddrs, ns, name)
    ensures AllBenign(t, pw.Families()) ==> Covered(pw.State(), pw.Families())
    ensures pw.myNS == ns && pw.myName == name
    ensures AllBenign(t, pw.Families()) ==>
              forall i, a | 0 <= i < |requests| && outs[i] == Done && LastFor(requests, i, |requests|)
                            && ToConnect(requests[i].1, ns, name) && a in requests[i].1.ips && a.family in pw.Families() ::
                a in pw.State().tunnels && a in pw.State().routed
    ensures OnlyGrows(t) ==> Exact(pw.State(), pw.Families())
  {
    pw := new PodWatcher(ns, name, host, ft, eg, used);
    NoTunnelNoRoute(ft.hash, host.net, used);
    t, outs := pw.Serve(requests);
    StartHasInv(First(t), pw.Families());
    if AllBenign(t, pw.Families()) {
      CoverageOverRuns(t, pw.Families());
      forall i, a | 0 <= i < |requests| && outs[i] == Done && LastFor(requests, i, |requests|)
                    && ToConnect(requests[i].1, ns, name) && a in requests[i].1.ips && a.family in pw.Families()
        ensures a in pw.State().tunnels && a in pw.State().routed
      {
        assert Answered(pw.podAddrs, ns, name, requests[i].0, requests[i].1);
        assert Lists(pw.State(), requests[i].0, a);
      }
    }
    if OnlyGrows(t) {
      ExactOverRuns(t, pw.Families());
    }
  }

  lemma {:induction false} NoTunnelNoRoute(h: Hash, n: Net, used: set<IP>)
    requires WellFormed(h, n, used) && Tunnels(h, n, used) == {}
    ensures Routed(n, used) == {}
  {
    forall a | a in used
      ensures a !in Routed(n, used)
    {
      MeaningOfSets(h, n, used, a);
    }
  }

  /** Coverage in terms of the kernel: every supported address of every tracked pod has a link that leads to it,
      and a return route of its own through that link, the only one through it. */
  lemma {:induction false} CoverageInKernel(pw: PodWatcher, key: string, a: IP)
    requires pw.Valid() && Covered(pw.State(), pw.Families())
    requires Lists(pw.State(), key, a) && a.family in pw.Families()
    ensures var n, name := pw.host.net, FouName(pw.ft.hash, a);
            && name in n.links && n.links[name] == Tunnel(a)
            && RoutesThrough(n, V4, name) == (if a.family.V4? then {a.bits} else {})
            && RoutesThrough(n, V6, name) == (if a.family.V6? then {a.bits} else {})
  {
    MeaningOfSets(pw.ft.hash, pw.host.net, pw.used, a);
  }

  // ---- receive devices -----------------------------------------------------------------------------

  /** The addresses an addPod hands to AddPeer, in order, without those of families the gateway lacks. */
  function Todo(existing: seq<IP>, families: set<Family>, ips: seq<IP>): seq<IP> {
    if ips == [] then []
    else
      var k := |ips| - 1;
      Todo(existing, families, ips[..k])
      + if ips[k] !in existing && ips[k].family in families then [ips[k]] else []
  }

  lemma {:induction false} TodoStep(existing: seq<IP>, families: set<Family>, ips: seq<IP>, i: nat)
    requires i < |ips|
    ensures Todo(existing, families, ips[..i + 1])
         == Todo(existing, families, ips[..i])
            + if ips[i] !in existing && ips[i].family in families then [ips[i]] else []
    ensures ips[i] in existing || ips[i].family !in families ==>
              Todo(existing, families, ips[..i + 1]) == Todo(existing, families, ips[..i])
  {
    assert ips[..i + 1][..i] == ips[..i];
  }

  lemma {:induction false} TodoPrefix(existing: seq<IP>, families: set<Family>, ips: seq<IP>, i: nat)
    requires i <= |ips|
    ensures Todo(existing, families, ips[..i]) <= Todo(existing, families, ips)
    decreases |ips| - i
  {
    if i < |ips| {
      TodoStep(existing, families, ips, i);
      TodoPrefix(existing, families, ips, i + 1);
    } else {
      assert ips[..i] == ips;
    }
  }

  lemma {:induction false} TodoMembers(existing: seq<IP>, families: set<Family>, ips: seq<IP>)
    ensures forall a :: a in Todo(existing, families, ips) <==> a in ips && a !in existing && a.family in families
  {
    if ips != [] {
      var k := |ips| - 1;
      TodoMembers(existing, families, ips[..k]);
      assert ips == ips[..k] + [ips[k]];
    }
  }

  // ---- fallback devices in the way -----------------------------------------------------------------

  /** The turn of one address: no clash appears, and without kernel faults it goes well exactly when the family is
      unsupported or there is no clash, and then the clashes are the same. */
  ghost predicate ClashTurn(h: Hash, n: Net, n': Net, a: IP, supported: bool, ok: bool, clean: bool) {
    && (forall f | Clash(n', f) :: Clash(n, f))
    && (clean ==> (ok <==> !(supported && PeerClash(h, n, a))))
    && (clean && ok ==> forall f :: Clash(n', f) <==> Clash(n, f))
  }

  ghost predicate ClashSoFar(h: Hash, n0: Net, n: Net, todo: seq<IP>, clean: bool) {
    && (forall f | Clash(n, f) :: Clash(n0, f))
    && (clean ==> (forall f :: Clash(n, f) <==> Clash(n0, f)) && forall a | a in todo :: !PeerClash(h, n0, a))
  }

  lemma {:induction false} ClashNext(
    h: Hash, n0: Net, n1: Net, n2: Net, existing: seq<IP>, families: set<Family>, ips: seq<IP>, i: nat,
    clean1: bool, clean2: bool)
    requires i < |ips| && ips[i] !in existing
    requires Passed(h, Devs(n0), Devs(n1), Todo(existing, families, ips[..i]), clean1)
    requires ClashSoFar(h, n0, n1, Todo(existing, families, ips[..i]), clean1)
    requires ClashTurn(h, n1, n2, ips[i], ips[i].family in families, true, clean2)
    ensures ClashSoFar(h, n0, n2, Todo(existing, families, ips[..i + 1]), clean1 && clean2)
  {
    TodoStep(existing, families, ips, i);
    if clean1 && clean2 {
      ClashUnchanged(h, n0, n1, Todo(existing, families, ips[..i]), ips[i]);
    }
  }

  lemma {:induction false} ClashStops(
    h: Hash, n0: Net, n1: Net, n2: Net, existing: seq<IP>, families: set<Family>, ips: seq<IP>, i: nat)
    requires i < |ips| && ips[i] !in existing
    requires Passed(h, Devs(n0), Devs(n1), Todo(existing, families, ips[..i]), true)
    requires ClashSoFar(h, n0, n1, Todo(existing, families, ips[..i]), true)
    requires ClashTurn(h, n1, n2, ips[i], ips[i].family in families, false, true)
    ensures exists a | a in Todo(existing, families, ips) :: PeerClash(h, n0, a)
  {
    ClashUnchanged(h, n0, n1, Todo(existing, families, ips[..i]), ips[i]);
    TodoMembers(existing, families, ips);
    assert ips[i] in Todo(existing, families, ips);
  }

  /** The turn of one address of the list. */
  predicate PeerTurn(h: Hash, d: Devices, d': Devices, a: IP, out: Outcome, clean: bool) {
    && Tried(h, d, d', a)
    && (out == Done ==> FouName(h, a) in d'.up)
    && (out == Done && clean ==> d' == AfterPeer(h, d, a))
  }

  lemma {:induction false} PeerTurnTaken(
    h: Hash, d: Devices, d1: Devices, d2: Devices, existing: seq<IP>, families: set<Family>, ips: seq<IP>, i: nat,
    out: Outcome, clean1: bool, clean2: bool)
    requires i < |ips| && ips[i] !in existing
    requires Passed(h, d, d1, Todo(existing, families, ips[..i]), clean1)
    requires ips[i].family !in families ==> out == Done && d2 == d1
    requires ips[i].family in families ==> PeerTurn(h, d1, d2, ips[i], out, clean2)
    ensures out == Done ==> Passed(h, d, d2, Todo(existing, families, ips[..i + 1]), clean1 && clean2)
    ensures out != Done ==> TodoCut(h, d, d2, Todo(existing, families, ips))
  {
    var x, a := Todo(existing, families, ips[..i]), ips[i];
    TodoStep(existing, families, ips, i);
    TodoPrefix(existing, families, ips, i + 1);
    if a.family in families {
      if out == Done {
        PassedStep(h, d, d1, d2, x, a, clean1 && clean2);
      } else {
        StoppedIsCut(h, d, d1, d2, x, a, Todo(existing, families, ips));
      }
    }
  }

  /** The first `i` addresses have had their turn. */
  ghost predicate Connecting(
    h: Hash, n0: Net, n: Net, existing: seq<IP>, families: set<Family>, ips: seq<IP>, i: nat, clean: bool)
    requires i <= |ips|
  {
    && Passed(h, Devs(n0), Devs(n), Todo(existing, families, ips[..i]), clean)
    && ClashSoFar(h, n0, n, Todo(existing, families, ips[..i]), clean)
  }

  lemma {:induction false} NothingTurned(h: Hash, n: Net, existing: seq<IP>, families: set<Family>, ips: seq<IP>)
    ensures Connecting(h, n, n, existing, families, ips, 0, true)
  {
    PassedNothing(h, Devs(n));
  }

  lemma {:induction false} TurnSkipped(
    h: Hash, n0: Net, n: Net, existing: seq<IP>, families: set<Family>, ips: seq<IP>, i: nat, clean: bool)
    requires i < |ips| && ips[i] in existing && Connecting(h, n0, n, existing, families, ips, i, clean)
    ensures Connecting(h, n0, n, existing, families, ips, i + 1, clean)
  {
    TodoStep(existing, families, ips, i);
  }

  lemma {:induction false} TurnTaken(
    h: Hash, n0: Net, n1: Net, n2: Net, existing: seq<IP>, families: set<Family>, ips: seq<IP>, i: nat,
    out: Outcome, clean1: bool, clean2: bool)
    requires i < |ips| && ips[i] !in existing && Connecting(h, n0, n1, existing, families, ips, i, clean1)
    requires ips[i].family !in families ==> out == Done && Devs(n2) == Devs(n1)
    requires ips[i].family in families ==> PeerTurn(h, Devs(n1), Devs(n2), ips[i], out, clean2)
    requires ClashTurn(h, n1, n2, ips[i], ips[i].family in families, out == Done, clean2)
    ensures forall f | Clash(n2, f) :: Clash(n0, f)
    ensures out == Done ==> Connecting(h, n0, n2, existing, families, ips, i + 1, clean1 && clean2)
    ensures out != Done ==> TodoCut(h, Devs(n0), Devs(n2), Todo(existing, families, ips))
    ensures out != Done && clean1 && clean2 ==> exists a | a in Todo(existing, families, ips) :: PeerClash(h, n0, a)
  {
    PeerTurnTaken(h, Devs(n0), Devs(n1), Devs(n2), existing, families, ips, i, out, clean1, clean2);
    if out == Done {
      ClashNext(h, n0, n1, n2, existing, families, ips, i, clean1, clean2);
    } else if clean1 && clean2 {
      ClashStops(h, n0, n1, n2, existing, families, ips, i);
    }
  }

  lemma {:induction false} AllTurned(
    h: Hash, n0: Net, n: Net, existing: seq<IP>, families: set<Family>, ips: seq<IP>, clean: bool)
    requires Connecting(h, n0, n, existing, families, ips, |ips|, clean)
    ensures Passed(h, Devs(n0), Devs(n), Todo(existing, families, ips), clean)
    ensures TodoCut(h, Devs(n0), Devs(n), Todo(existing, families, ips))
    ensures forall f | Clash(n, f) :: Clash(n0, f)
    ensures clean ==> forall a | a in Todo(existing, families, ips) :: !PeerClash(h, n0, a)
  {
    var todo := Todo(existing, families, ips);
    assert ips[..|ips|] == ips;
    PassedIsCut(h, Devs(n0), Devs(n), todo, []);
    assert todo + [] == todo;
  }

  ghost function NameSet(h: Hash, s: set<IP>): set<string> {
    set a | a in s :: FouName(h, a)
  }

  lemma {:induction false} NameSetGrows(h: Hash, s: set<IP>, a: IP, up: set<string>)
    ensures up - NameSet(h, s + {a}) == up - NameSet(h, s) - {FouName(h, a)}
  {
    assert NameSet(h, s + {a}) == NameSet(h, s) + {FouName(h, a)};
  }

  /** Links of dropped addresses are not links of the new list. */
  lemma {:induction false} DropsUnseen(
    h: Hash, used: set<IP>, d: Devices, d': Devices, gone: set<IP>, ips: seq<IP>, todo: seq<IP>)
    requires NoCollision(h, used) && gone <= used && (forall a | a in ips :: a in used)
    requires (forall a | a in gone :: a !in ips) && (forall a | a in todo :: a in ips)
    requires d'.up == d.up - NameSet(h, gone)
    ensures Seen(h, d', todo) == Seen(h, d, todo)
  {
    forall a, b | a in gone && b in todo
      ensures FouName(h, a) != FouName(h, b)
    {
      NamesDiffer(h, used, a, b);
    }
  }

  lemma {:induction false} DropsKeepCut(
    h: Hash, used: set<IP>, d: Devices, d1: Devices, d2: Devices, gone: set<IP>,
    existing: seq<IP>, families: set<Family>, ips: seq<IP>)
    requires NoCollision(h, used) && gone <= used && forall a | a in ips :: a in used
    requires forall a | a in gone :: a !in ips
    requires TodoCut(h, d, d1, Todo(existing, families, ips))
    requires d2.up == d1.up - NameSet(h, gone) && d2.recv == d1.recv
    ensures TodoCut(h, d, d2, Todo(existing, families, ips))
  {
    var todo := Todo(existing, families, ips);
    TodoMembers(existing, families, ips);
    DropsUnseen(h, used, d1, d2, gone, ips, todo);
    CutUnseen(h, d, d1, d2, todo);
  }

  /** The way back to a client: on a gateway whose initialisation is marked as finished there is a policy rule, and the
      table it looks into has the route of every supported address of every tracked pod, through its own tunnel. */
  lemma {:induction false} WayBack(pw: PodWatcher, t: Bootstrap.History, key: string, a: IP) returns (prio: int, table: int)
    requires pw.Valid() && Covered(pw.State(), pw.Families())
    requires Lists(pw.State(), key, a) && a.family in pw.Families()
    requires Bootstrap.IsHistory(Bootstrap.EgressSteps(pw.eg.ipv4, pw.eg.ipv6), t)
    requires Bootstrap.Origin(t) == Bootstrap.Boot({}, false) && t.boot.marked
    ensures ReturnRule(a.family, prio, table) in t.boot.done
    ensures a.bits in pw.host.net.Of(a.family).TableOf(table)
    ensures pw.host.net.Of(a.family).TableOf(table)[a.bits] == FouName(pw.ft.hash, a)
  {
    Bootstrap.EgressCommits(pw.eg.ipv4, pw.eg.ipv6, t);
    CoverageInKernel(pw, key, a);
    prio, table := 2000, 118;
    assert ReturnRule(a.family, prio, table) in Bootstrap.GatewayNeeds(a.family);
    assert a.bits in RoutesThrough(pw.host.net, a.family, FouName(pw.ft.hash, a));
  }

  /** Tunnels and routes of `s` added. */
  function Plus(w: World, s: set<IP>): World {
    w.(tunnels := w.tunnels + s, routed := w.routed + s)
  }

  ghost predicate Between(w: World, w': World, s: set<IP>) {
    && w' == w.(tunnels := w'.tunnels, routed := w'.routed)
    && w.tunnels <= w'.tunnels <= w.tunnels + s && w.routed <= w'.routed <= w.routed + s
  }

  function Minus(w: World, s: set<IP>): World {
    w.(tunnels := w.tunnels - s, routed := w.routed - s)
  }

  lemma {:induction false} CutWhileAdding(w: World, w': World, key: string, ips: seq<IP>, families: set<Family>)
    requires Between(w, w', Adds(w, key, ips, families))
    ensures AddStep(w, w', key, ips, families, AddFailed)
  {
  }

  /** All additions and some deletions, then all of them and the record. */
  lemma {:induction false} AddCompletes(w: World, key: string, ips: seq<IP>, families: set<Family>, gone: set<IP>)
    requires gone <= Drops(Plus(w, Adds(w, key, ips, families)), key, ips)
    ensures var w1 := Plus(w, Adds(w, key, ips, families));
            && Drops(w1, key, ips) == Drops(w, key, ips)
            && AddStep(w, Minus(w1, gone), key, ips, families, DelFailed)
            && (gone == Drops(w, key, ips) ==>
                  AfterAdd(w, key, ips, families)
                  == Minus(w1, gone).(podAddrs := w.podAddrs[key := ips], peers := Register(w.peers, key, ips),
                                      gauge := |w.podAddrs[key := ips]|))
  {
    var w1 := Plus(w, Adds(w, key, ips, families));
    assert Listed(w1, key) == Listed(w, key);
  }

  lemma {:induction false} DoneIsStep(w: World, key: string)
    requires AllIndexed(w.peers, key, Listed(w, key))
    ensures var w' := AfterRelease(w, key, Listed(w, key));
            DelStep(w, w'.(podAddrs := w.podAddrs - {key}, gauge := |w.podAddrs - {key}|), key, Done)
  {
  }

  lemma {:induction false} NotIndexedMeans(w: World, w': World, key: string, i: nat)
    requires DelCut(w, w', key, i) && !InIndex(w'.peers, key, Listed(w, key)[i])
    ensures !AllIndexed(w.peers, key, Listed(w, key))
  {
    UnregisterIndex(w.peers, key, Listed(w, key)[..i], key, Listed(w, key)[i]);
  }

  lemma {:induction false} CutIsStep(w: World, w': World, key: string, i: nat, out: Outcome)
    requires DelCut(w, w', key, i)
    requires out == if InIndex(w'.peers, key, Listed(w, key)[i]) then DelFailed else NotIndexed
    ensures DelStep(w, w', key, out)
  {
  }

  function NotAmong(s: seq<IP>, t: seq<IP>): set<IP> {
    set a | a in s && a !in t
  }

  lemma {:induction false} NotAmongGrows(s: seq<IP>, t: seq<IP>, i: nat)
    requires i < |s|
    ensures NotAmong(s[..i + 1], t) == NotAmong(s[..i], t) + if s[i] in t then {} else {s[i]}
    ensures NotAmong(s[..i], t) <= NotAmong(s, t)
  {
  }

  lemma {:induction false} MinusNothing(w: World)
    ensures Minus(w, {}) == w
  {
  }

  lemma {:induction false} MinusMinus(w: World, s: set<IP>, t: set<IP>)
    ensures Minus(Minus(w, s), t) == Minus(w, s + t)
  {
  }

  lemma {:induction false} AddsGrow(w: World, key: string, ips: seq<IP>, i: nat, families: set<Family>)
    requires i < |ips|
    ensures Adds(w, key, ips[..i + 1], families)
         == Adds(w, key, ips[..i], families)
            + if ips[i] !in Listed(w, key) && ips[i].family in families then {ips[i]} else {}
    ensures Adds(w, key, ips[..i + 1], families) <= Adds(w, key, ips, families)
  {
  }

  lemma {:induction false} SizeAboveOne(s: set<string>, key: string)
    requires key in s
    ensures |s| > 1 <==> s != {key}
  {
    if s != {key} {
      var other :| other in s && other != key;
      assert |s| == |s - {key}| + 1 && other in s - {key};
    }
  }

  lemma {:induction false} PlusNothing(w: World)
    ensures Plus(w, {}) == w
  {
  }

  lemma {:induction false} PlusPlus(w: World, s: set<IP>, t: set<IP>)
    ensures Plus(Plus(w, s), t) == Plus(w, s + t)
  {
  }

  lemma {:induction false} RegisterStep(peers: map<IP, set<string>>, key: string, ips: seq<IP>, i: nat)
    requires i < |ips|
    ensures var p := Register(peers, key, ips[..i]);
            Register(peers, key, ips[..i + 1]) == p[ips[i] := (if ips[i] in p then p[ips[i]] else {}) + {key}]
  {
    assert ips[..i + 1] == ips[..i] + [ips[i]];
    var p, q := Register(peers, key, ips[..i]), Register(peers, key, ips[..i + 1]);
    var r := p[ips[i] := (if ips[i] in p then p[ips[i]] else {}) + {key}];
    assert q.Keys == r.Keys;
    forall a | a in q
      ensures q[a] == r[a]
    {
      assert forall k :: k in q[a] <==> k in r[a];
    }
  }

  lemma {:induction false} RegisterNothing(peers: map<IP, set<string>>, key: string)
    ensures Register(peers, key, []) == peers
  {
    assert forall a | a in peers :: peers[a] + {} == peers[a];
  }

  lemma BetweenGrows(w: World, w': World, s: set<IP>, t: set<IP>, all: set<IP>)
    requires Between(Plus(w, s), w', t) && s + t <= all
    ensures Between(w, w', all)
  {
  }

  /** One address of a pod released. */
  function Released(w: World, key: string, a: IP): World
    requires a in w.peers
  {
    var gone := if w.peers[a] == {key} then {a} else {};
    var keySet := w.peers[a] - {key};
    w.(peers := if keySet == {} then w.peers - {a} else w.peers[a := keySet],
       tunnels := w.tunnels - gone,
       routed := w.routed - gone)
  }

  /** Releasing the addresses one by one is releasing them together. */
  lemma {:induction false} ReleaseStep(w: World, key: string, addrs: seq<IP>, i: nat)
    requires i < |addrs| && AllIndexed(w.peers, key, addrs[..i])
    requires InIndex(AfterRelease(w, key, addrs[..i]).peers, key, addrs[i])
    ensures AllIndexed(w.peers, key, addrs[..i + 1])
    ensures AfterRelease(w, key, addrs[..i + 1]) == Released(AfterRelease(w, key, addrs[..i]), key, addrs[i])
  {
    var a := addrs[i];
    var p := Unregister(w.peers, key, addrs[..i]);
    UnregisterIndex(w.peers, key, addrs[..i], key, a);
    assert a !in addrs[..i];
    assert addrs[..i + 1] == addrs[..i] + [a];
    assert p[a] == w.peers[a];
    assert Unregister(w.peers, key, addrs[..i + 1]) == if p[a] - {key} == {} then p - {a} else p[a := p[a] - {key}];
    var gone := if p[a] == {key} then {a} else {};
    assert Sole(w.peers, key, addrs[..i + 1]) == Sole(w.peers, key, addrs[..i]) + gone;
    assert w.tunnels - Sole(w.peers, key, addrs[..i + 1]) == w.tunnels - Sole(w.peers, key, addrs[..i]) - gone;
    assert w.routed - Sole(w.peers, key, addrs[..i + 1]) == w.routed - Sole(w.peers, key, addrs[..i]) - gone;
  }
}
