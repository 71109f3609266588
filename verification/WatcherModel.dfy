/** The pod watcher as a state machine: what each of its steps may do, and what holds over all runs.
    The steps are the contracts of the watcher's methods (module PodWatchers). */
module WatcherModel {
  import opened Cidr
  import opened Kernel

  /** `peers` is the inverted index of `podAddrs`; `tunnels` and `routed` are the addresses that have a
      live tunnel and a return route in the kernel. */
  datatype World = World(
    podAddrs: map<string, seq<IP>>,
    peers: map<IP, set<string>>,
    tunnels: set<IP>,
    routed: set<IP>,
    gauge: int)

  datatype Event = AddPod(key: string, ips: seq<IP>) | DelPod(key: string) | NoEvent

  /** `AddFailed`: AddPeer or AddClient failed. `DelFailed`: DelPeer failed. `NotIndexed`: the index has
      lost the pod's own entry. */
  datatype Outcome = Done | AddFailed | DelFailed | NotIndexed

  function Listed(w: World, key: string): seq<IP> {
    if key in w.podAddrs then w.podAddrs[key] else []
  }

  predicate Lists(w: World, key: string, a: IP) {
    key in w.podAddrs && a in w.podAddrs[key]
  }

  predicate InIndex(peers: map<IP, set<string>>, key: string, a: IP) {
    a in peers && key in peers[a]
  }

  // ---- adding a pod ------------------------------------------------------------------------------

  /** New addresses of families the gateway has. */
  function Adds(w: World, key: string, ips: seq<IP>, families: set<Family>): set<IP> {
    set a | a in ips && a !in Listed(w, key) && a.family in families
  }

  function Drops(w: World, key: string, ips: seq<IP>): set<IP> {
    set a | a in Listed(w, key) && a !in ips
  }

  function Register(peers: map<IP, set<string>>, key: string, ips: seq<IP>): map<IP, set<string>> {
    map a | a in peers.Keys + (set b | b in ips) ::
      (if a in peers then peers[a] else {}) + (if a in ips then {key} else {})
  }

  /** The state after a completed addPod. */
  function AfterAdd(w: World, key: string, ips: seq<IP>, families: set<Family>): World {
    World(w.podAddrs[key := ips],
          Register(w.peers, key, ips),
          w.tunnels + Adds(w, key, ips, families) - Drops(w, key, ips),
          w.routed + Adds(w, key, ips, families) - Drops(w, key, ips),
          |w.podAddrs[key := ips]|)
  }

  /** An addPod that was cut short: memory is untouched and the kernel is somewhere on the way. Unless
      the deletions had begun, nothing is missing that was there before. */
  ghost predicate AddCut(w: World, w': World, key: string, ips: seq<IP>, families: set<Family>, deleting: bool) {
    var adds, drops := Adds(w, key, ips, families), Drops(w, key, ips);
    && w' == w.(tunnels := w'.tunnels, routed := w'.routed)
    && w'.tunnels <= w.tunnels + adds && w'.routed <= w.routed + adds
    && (if deleting then w.tunnels + adds - drops <= w'.tunnels && w.routed + adds - drops <= w'.routed
        else w.tunnels <= w'.tunnels && w.routed <= w'.routed)
  }

  // ---- removing a pod ----------------------------------------------------------------------------

  function Unregister(peers: map<IP, set<string>>, key: string, addrs: seq<IP>): map<IP, set<string>> {
    map a | a in peers && !(a in addrs && peers[a] - {key} == {}) ::
      if a in addrs then peers[a] - {key} else peers[a]
  }

  /** The addresses among `addrs` that no other pod is indexed under. */
  function Sole(peers: map<IP, set<string>>, key: string, addrs: seq<IP>): set<IP> {
    set a | a in addrs && a in peers && peers[a] == {key}
  }

  /** The state after the first addresses of the list have been processed. */
  function AfterRelease(w: World, key: string, addrs: seq<IP>): World {
    w.(peers := Unregister(w.peers, key, addrs),
       tunnels := w.tunnels - Sole(w.peers, key, addrs),
       routed := w.routed - Sole(w.peers, key, addrs))
  }

  ghost predicate AllIndexed(peers: map<IP, set<string>>, key: string, addrs: seq<IP>) {
    Distinct(addrs) && forall i | 0 <= i < |addrs| :: InIndex(peers, key, addrs[i])
  }

  function AfterDel(w: World, key: string): World {
    AfterRelease(w, key, Listed(w, key)).(podAddrs := w.podAddrs - {key}, gauge := |w.podAddrs - {key}|)
  }

  /** A removal that stopped at address number `i`. */
  ghost predicate DelCut(w: World, w': World, key: string, i: nat) {
    && i < |Listed(w, key)|
    && AllIndexed(w.peers, key, Listed(w, key)[..i])
    && w' == AfterRelease(w, key, Listed(w, key)[..i])
  }

  // ---- steps and runs ----------------------------------------------------------------------------

  ghost predicate AddStep(w: World, w': World, key: string, ips: seq<IP>, families: set<Family>, out: Outcome) {
    match out
    case Done => w' == AfterAdd(w, key, ips, families)
    case AddFailed => AddCut(w, w', key, ips, families, false)
    case DelFailed => AddCut(w, w', key, ips, families, true)
    case NotIndexed => false
  }

  ghost predicate DelStep(w: World, w': World, key: string, out: Outcome) {
    match out
    case Done => AllIndexed(w.peers, key, Listed(w, key)) && w' == AfterDel(w, key)
    case AddFailed => false
    case DelFailed => exists i: nat :: DelCut(w, w', key, i) && InIndex(w'.peers, key, Listed(w, key)[i])
    case NotIndexed => exists i: nat :: DelCut(w, w', key, i) && !InIndex(w'.peers, key, Listed(w, key)[i])
  }

  ghost predicate Step(w: World, w': World, ev: Event, out: Outcome, families: set<Family>) {
    match ev
    case AddPod(key, ips) => AddStep(w, w', key, ips, families, out)
    case DelPod(key) => DelStep(w, w', key, out)
    case NoEvent => w' == w && out == Done
  }

  /** A run, from its first state on; `world` is the state reached. */
  datatype Trace =
    | Start(world: World)
    | Then(before: Trace, event: Event, out: Outcome, world: World)

  ghost predicate IsRun(t: Trace, families: set<Family>) {
    t.Then? ==> IsRun(t.before, families) && Step(t.before.world, t.world, t.event, t.out, families)
  }

  function First(t: Trace): World {
    if t.Start? then t.world else First(t.before)
  }

  function Events(t: Trace): seq<Event> {
    if t.Start? then [] else Events(t.before) + [t.event]
  }

  // ---- the index covers what is listed -------------------------------------------------------------

  /** Every tracked (pod, address) pair is in the index, and no pod lists an address twice. */
  ghost predicate IndexOk(w: World) {
    && (forall key, a | Lists(w, key, a) :: InIndex(w.peers, key, a))
    && (forall key | key in w.podAddrs :: Distinct(w.podAddrs[key]))
  }

  lemma RegisterIndex(peers: map<IP, set<string>>, key: string, ips: seq<IP>, k: string, a: IP)
    ensures InIndex(Register(peers, key, ips), k, a) <==> InIndex(peers, k, a) || (k == key && a in ips)
  {
  }

  lemma {:induction false} UnregisterIndex(peers: map<IP, set<string>>, key: string, addrs: seq<IP>, k: string, a: IP)
    ensures InIndex(Unregister(peers, key, addrs), k, a) <==> InIndex(peers, k, a) && !(k == key && a in addrs)
  {
    if InIndex(peers, k, a) && k != key {
      assert k in peers[a] - {key};
    }
  }

  lemma {:induction false} ListedIsIndexed(w: World, key: string)
    requires IndexOk(w)
    ensures AllIndexed(w.peers, key, Listed(w, key))
  {
  }

  /** A removal that stops on a well-formed index stops because DelPeer failed. */
  lemma {:induction false} NeverNotIndexed(w: World, w': World, key: string, i: nat)
    requires IndexOk(w) && DelCut(w, w', key, i)
    ensures InIndex(w'.peers, key, Listed(w, key)[i])
  {
    var addrs := Listed(w, key);
    ListedIsIndexed(w, key);
    UnregisterIndex(w.peers, key, addrs[..i], key, addrs[i]);
  }

  /** The index survives every step except a removal in which DelPeer fails; the "not indexed" errors
      are unreachable. */
  lemma {:induction false} StepKeepsIndex(w: World, w': World, ev: Event, out: Outcome, families: set<Family>)
    requires IndexOk(w) && Step(w, w', ev, out, families)
    requires ev.AddPod? ==> Distinct(ev.ips)
    ensures out != NotIndexed
    ensures !(ev.DelPod? && out == DelFailed) ==> IndexOk(w')
  {
    match ev
    case AddPod(key, ips) =>
      if out == Done {
        forall k, a | Lists(w', k, a)
          ensures InIndex(w'.peers, k, a)
        {
          RegisterIndex(w.peers, key, ips, k, a);
          assert k == key || Lists(w, k, a);
        }
      } else {
        assert forall k, a :: Lists(w', k, a) <==> Lists(w, k, a);
      }
    case DelPod(key) =>
      forall i: nat | DelCut(w, w', key, i)
        ensures InIndex(w'.peers, key, Listed(w, key)[i])
      {
        NeverNotIndexed(w, w', key, i);
      }
      if out == Done {
        forall k, a | Lists(w', k, a)
          ensures InIndex(w'.peers, k, a)
        {
          UnregisterIndex(w.peers, key, Listed(w, key), k, a);
          assert Lists(w, k, a) && k != key;
        }
      }
    case NoEvent =>
  }

  /** A removal cut short keeps the index exactly when it stopped at the first address. */
  lemma {:induction false} CutKeepsIndexIff(w: World, w': World, key: string, i: nat)
    requires IndexOk(w) && DelCut(w, w', key, i)
    ensures IndexOk(w') <==> i == 0
  {
    var addrs := Listed(w, key);
    if i == 0 {
      assert addrs[..0] == [];
      assert w'.peers == w.peers;
      assert forall k, a :: Lists(w', k, a) <==> Lists(w, k, a);
    } else {
      assert addrs[0] == addrs[..i][0];
      UnregisterIndex(w.peers, key, addrs[..i], key, addrs[0]);
      assert Lists(w', key, addrs[0]);
    }
  }

  lemma {:induction false} ReleaseSparesOthers(w: World, key: string, addrs: seq<IP>, other: string, a: IP)
    requires other != key && InIndex(w.peers, other, a)
    ensures a in w.tunnels ==> a in AfterRelease(w, key, addrs).tunnels
    ensures a in w.routed ==> a in AfterRelease(w, key, addrs).routed
  {
  }

  /** A removal, completed or cut short, never takes down the tunnel or the route of an address that another
      tracked pod lists. */
  lemma {:induction false} RemovalSparesOthers(w: World, w': World, key: string, out: Outcome, other: string, a: IP)
    requires IndexOk(w) && DelStep(w, w', key, out) && other != key && Lists(w, other, a)
    ensures a in w.tunnels ==> a in w'.tunnels
    ensures a in w.routed ==> a in w'.routed
  {
    if out == Done {
      ReleaseSparesOthers(w, key, Listed(w, key), other, a);
    } else {
      var i: nat :| DelCut(w, w', key, i);
      ReleaseSparesOthers(w, key, Listed(w, key)[..i], other, a);
    }
  }

  // ---- coverage ------------------------------------------------------------------------------------

  /** Every supported address of every tracked pod has its tunnel and its return route. */
  ghost predicate Covered(w: World, families: set<Family>) {
    forall key, a | Lists(w, key, a) && a.family in families :: a in w.tunnels && a in w.routed
  }

  /** The update drops no supported address that another tracked pod still lists. */
  ghost predicate NoSharedDrop(w: World, key: string, ips: seq<IP>, families: set<Family>) {
    forall other, a | other != key && Lists(w, other, a) && a.family in families :: a !in Drops(w, key, ips)
  }

  /** A completed addPod keeps coverage exactly when it drops no address another pod lists. */
  lemma {:induction false} AddKeepsCoverageIff(w: World, key: string, ips: seq<IP>, families: set<Family>)
    requires Covered(w, families)
    ensures Covered(AfterAdd(w, key, ips, families), families) <==> NoSharedDrop(w, key, ips, families)
  {
    var w' := AfterAdd(w, key, ips, families);
    if NoSharedDrop(w, key, ips, families) {
      forall k, a | Lists(w', k, a) && a.family in families
        ensures a in w'.tunnels && a in w'.routed
      {
        if k == key {
          assert a in Adds(w, key, ips, families) || Lists(w, key, a);
        } else {
          assert Lists(w, k, a);
        }
      }
    } else {
      var other, a :| other != key && Lists(w, other, a) && a.family in families && a in Drops(w, key, ips);
      assert Lists(w', other, a) && a !in w'.tunnels;
    }
  }

  ghost predicate Inv(w: World, families: set<Family>) {
    IndexOk(w) && Covered(w, families)
  }

  /** A new watcher starts in a good state, whatever tunnels an earlier process left behind. */
  lemma {:induction false} StartHasInv(w: World, families: set<Family>)
    requires w.podAddrs == map[]
    ensures Inv(w, families)
  {
  }

  /** The side conditions of one step: addresses are distinct, no shared drop, and DelPeer succeeds, except for a
      removal that stops at its first address. */
  ghost predicate Benign(w: World, w': World, ev: Event, out: Outcome, families: set<Family>) {
    && (out == DelFailed ==> ev.DelPod? && DelCut(w, w', ev.key, 0))
    && (ev.AddPod? ==> Distinct(ev.ips) && NoSharedDrop(w, ev.key, ev.ips, families))
  }

  lemma {:induction false} CutAtFirst(w: World, w': World, key: string)
    requires DelCut(w, w', key, 0)
    ensures w' == w
  {
    assert Listed(w, key)[..0] == [];
    ReleaseNothing(w, key);
  }

  lemma {:induction false} StepKeepsInv(w: World, w': World, ev: Event, out: Outcome, families: set<Family>)
    requires Inv(w, families) && Step(w, w', ev, out, families) && Benign(w, w', ev, out, families)
    ensures Inv(w', families) && out != NotIndexed
  {
    StepKeepsIndex(w, w', ev, out, families);
    match ev
    case AddPod(key, ips) =>
      if out == Done {
        AddKeepsCoverageIff(w, key, ips, families);
      } else {
        assert forall k, a :: Lists(w', k, a) <==> Lists(w, k, a);
      }
    case DelPod(key) =>
      if out == DelFailed {
        CutAtFirst(w, w', key);
      } else {
        RemovalKeepsCoverage(w, w', key, families);
      }
    case NoEvent =>
  }

  lemma {:induction false} RemovalKeepsCoverage(w: World, w': World, key: string, families: set<Family>)
    requires Inv(w, families) && DelStep(w, w', key, Done)
    ensures Covered(w', families)
  {
    forall k, a | Lists(w', k, a) && a.family in families
      ensures a in w'.tunnels && a in w'.routed
    {
      assert Lists(w, k, a) && k != key;
      RemovalSparesOthers(w, w', key, Done, k, a);
    }
  }

  ghost predicate AllBenign(t: Trace, families: set<Family>) {
    t.Then? ==> AllBenign(t.before, families) && Benign(t.before.world, t.world, t.event, t.out, families)
  }

  /** The condition on addresses is needed: a list with a repetition can be added but never released. */
  lemma {:induction false} RepeatedNeverReleased(w: World, w': World, key: string, out: Outcome)
    requires !Distinct(Listed(w, key)) && DelStep(w, w', key, out)
    ensures out != Done && key in w'.podAddrs
  {
  }

  /** Over every run in which AddPeer and AddClient may fail anywhere, coverage holds in every state and
      the index is never found broken. */
  lemma {:induction false} CoverageOverRuns(t: Trace, families: set<Family>)
    requires IsRun(t, families) && AllBenign(t, families) && Inv(First(t), families)
    ensures Inv(t.world, families)
    ensures t.Then? ==> t.out != NotIndexed
  {
    if t.Then? {
      CoverageOverRuns(t.before, families);
      StepKeepsInv(t.before.world, t.world, t.event, t.out, families);
    }
  }

  // ---- exactness -----------------------------------------------------------------------------------

  ghost predicate IndexIsInverse(w: World) {
    forall key, a :: InIndex(w.peers, key, a) <==> Lists(w, key, a)
  }

  ghost predicate NoEmptySets(peers: map<IP, set<string>>) {
    forall a | a in peers :: peers[a] != {}
  }

  /** `peers` is the exact inverse of `podAddrs`, with no empty key set. */
  ghost predicate ExactIndex(w: World) {
    IndexIsInverse(w) && NoEmptySets(w.peers)
  }

  lemma {:induction false} RegisterNoEmpty(peers: map<IP, set<string>>, key: string, ips: seq<IP>)
    requires NoEmptySets(peers)
    ensures NoEmptySets(Register(peers, key, ips))
  {
  }

  lemma {:induction false} AddKeepsInverse(w: World, key: string, ips: seq<IP>, families: set<Family>)
    requires IndexIsInverse(w) && Drops(w, key, ips) == {}
    ensures IndexIsInverse(AfterAdd(w, key, ips, families))
  {
    var w' := AfterAdd(w, key, ips, families);
    forall k, a
      ensures InIndex(w'.peers, k, a) <==> Lists(w', k, a)
    {
      AddInverseAt(w, key, ips, families, k, a);
    }
  }

  lemma {:induction false} DropBreaksInverse(w: World, key: string, ips: seq<IP>, families: set<Family>, a: IP)
    requires IndexIsInverse(w) && a in Drops(w, key, ips)
    ensures !IndexIsInverse(AfterAdd(w, key, ips, families))
  {
    AddInverseAt(w, key, ips, families, key, a);
  }

  /** An update keeps the index exact exactly when it drops no address. */
  lemma {:induction false} AddKeepsExactIff(w: World, key: string, ips: seq<IP>, families: set<Family>)
    requires ExactIndex(w)
    ensures ExactIndex(AfterAdd(w, key, ips, families)) <==> Drops(w, key, ips) == {}
  {
    if Drops(w, key, ips) == {} {
      AddKeepsInverse(w, key, ips, families);
      RegisterNoEmpty(w.peers, key, ips);
    } else {
      var a :| a in Drops(w, key, ips);
      DropBreaksInverse(w, key, ips, families, a);
    }
  }

  lemma {:induction false} AddInverseAt(w: World, key: string, ips: seq<IP>, families: set<Family>, k: string, a: IP)
    requires InIndex(w.peers, k, a) <==> Lists(w, k, a)
    ensures var w' := AfterAdd(w, key, ips, families);
            (InIndex(w'.peers, k, a) <==> Lists(w', k, a)) <==> !(k == key && a in Drops(w, key, ips))
  {
  }

  lemma {:induction false} DelKeepsExact(w: World, key: string)
    requires ExactIndex(w)
    ensures ExactIndex(AfterDel(w, key))
  {
    var w' := AfterDel(w, key);
    forall k, a
      ensures InIndex(w'.peers, k, a) <==> Lists(w', k, a)
    {
      UnregisterIndex(w.peers, key, Listed(w, key), k, a);
      assert InIndex(w.peers, k, a) <==> Lists(w, k, a);
    }
  }

  /** The tunnels and the return routes are those of the supported listed addresses, no more. */
  ghost predicate ExactKernel(w: World, families: set<Family>) {
    && (forall a :: a in w.tunnels <==> a.family in families && exists key :: Lists(w, key, a))
    && w.routed == w.tunnels
  }

  ghost predicate Exact(w: World, families: set<Family>) {
    ExactIndex(w) && ExactKernel(w, families) && w.gauge == |w.podAddrs|
  }

  lemma {:induction false} AddKeepsExactKernel(w: World, key: string, ips: seq<IP>, families: set<Family>)
    requires ExactKernel(w, families) && Drops(w, key, ips) == {}
    ensures ExactKernel(AfterAdd(w, key, ips, families), families)
  {
    var w' := AfterAdd(w, key, ips, families);
    forall a
      ensures a in w'.tunnels <==> a.family in families && exists k :: Lists(w', k, a)
    {
      assert a !in Drops(w, key, ips);
      if a in w.tunnels {
        var k :| Lists(w, k, a);
        assert Lists(w', k, a);
      } else if a in Adds(w, key, ips, families) {
        assert Lists(w', key, a);
      }
      if a.family in families {
        if k :| Lists(w', k, a) {
          assert Lists(w, k, a) || (k == key && a in Adds(w, key, ips, families));
        }
      }
    }
  }

  lemma {:induction false} DelKeepsExactKernel(w: World, key: string, families: set<Family>)
    requires ExactIndex(w) && ExactKernel(w, families)
    ensures ExactKernel(AfterDel(w, key), families)
  {
    var w' := AfterDel(w, key);
    forall a
      ensures a in w'.tunnels <==> a.family in families && exists k :: Lists(w', k, a)
    {
      assert forall k :: InIndex(w.peers, k, a) <==> Lists(w, k, a);
      if a in w'.tunnels {
        var k :| Lists(w, k, a);
        if !Lists(w', k, a) {
          assert k == key && w.peers[a] != {key};
          var other :| other in w.peers[a] && other != key;
          assert InIndex(w.peers, other, a);
          assert Lists(w', other, a);
        }
      }
      if k :| Lists(w', k, a) {
        assert Lists(w, k, a) && k in w.peers[a] && k != key;
      }
    }
  }

  /** Every step completed and no update dropped an address. */
  ghost predicate OnlyGrows(t: Trace) {
    t.Then? ==>
      && OnlyGrows(t.before) && t.out == Done
      && (t.event.AddPod? ==> Drops(t.before.world, t.event.key, t.event.ips) == {})
  }

  lemma {:induction false} StepKeepsExact(w: World, w': World, ev: Event, families: set<Family>)
    requires Exact(w, families) && Step(w, w', ev, Done, families)
    requires ev.AddPod? ==> Drops(w, ev.key, ev.ips) == {}
    ensures Exact(w', families)
  {
    match ev
    case AddPod(key, ips) =>
      AddKeepsExactIff(w, key, ips, families);
      AddKeepsExactKernel(w, key, ips, families);
    case DelPod(key) =>
      DelKeepsExact(w, key);
      DelKeepsExactKernel(w, key, families);
    case NoEvent =>
  }

  /** Over every run of completed steps from an empty watcher in which address lists only grow, the index
      is the exact inverse, the tunnels are exactly the supported addresses, and the gauge counts pods. */
  lemma {:induction false} ExactOverRuns(t: Trace, families: set<Family>)
    requires IsRun(t, families) && OnlyGrows(t) && First(t) == World(map[], map[], {}, {}, 0)
    ensures Exact(t.world, families)
  {
    if t.Then? {
      ExactOverRuns(t.before, families);
      StepKeepsExact(t.before.world, t.world, t.event, families);
    }
  }

  // ---- retries -------------------------------------------------------------------------------------

  /** Wherever an addPod was cut short, running it again to the end gives the lists, the index, the tunnels and
      the return routes that one uninterrupted call would have given. The receive devices are not part of
      this state: see RetryAddPod in module PodWatchers. */
  lemma {:induction false} RetryConverges(
    w: World, m: World, key: string, ips: seq<IP>, families: set<Family>, deleting: bool)
    requires AddCut(w, m, key, ips, families, deleting)
    ensures AfterAdd(m, key, ips, families) == AfterAdd(w, key, ips, families)
  {
    var adds, drops := Adds(w, key, ips, families), Drops(w, key, ips);
    assert Adds(m, key, ips, families) == adds && Drops(m, key, ips) == drops;
    assert m.tunnels + adds - drops == w.tunnels + adds - drops;
    assert m.routed + adds - drops == w.routed + adds - drops;
  }

  /** Attempts to add one pod, none of which completed. */
  ghost predicate FailedAttempts(t: Trace, key: string, ips: seq<IP>) {
    t.Then? ==> FailedAttempts(t.before, key, ips) && t.event == AddPod(key, ips) && t.out != Done
  }

  /** The same after any number of failed attempts. */
  lemma {:induction false} RetriesConverge(t: Trace, key: string, ips: seq<IP>, families: set<Family>)
    requires IsRun(t, families) && FailedAttempts(t, key, ips)
    ensures AfterAdd(t.world, key, ips, families) == AfterAdd(First(t), key, ips, families)
  {
    if t.Then? {
      RetriesConverge(t.before, key, ips, families);
      RetryConverges(t.before.world, t.world, key, ips, families, t.out == DelFailed);
    }
  }

  // ---- release happens once ------------------------------------------------------------------------

  /** The step is a completed addPod of the pod. */
  predicate Readds(ev: Event, out: Outcome, key: string) {
    ev.AddPod? && ev.key == key && out == Done
  }

  ghost predicate NeverAdded(t: Trace, key: string) {
    t.Then? ==> NeverAdded(t.before, key) && !Readds(t.event, t.out, key)
  }

  lemma {:induction false} ReleaseNothing(w: World, key: string)
    ensures AfterRelease(w, key, []) == w
  {
  }

  lemma {:induction false} DeleteUntracked(w: World, w': World, key: string, out: Outcome)
    requires key !in w.podAddrs && DelStep(w, w', key, out)
    ensures out == Done && w' == w.(gauge := |w.podAddrs|)
  {
  }

  lemma {:induction false} StaysUntracked(t: Trace, key: string, families: set<Family>)
    requires IsRun(t, families) && NeverAdded(t, key) && key !in First(t).podAddrs
    ensures key !in t.world.podAddrs
  {
    if t.Then? {
      StaysUntracked(t.before, key, families);
      StepKeepsUntracked(t.before.world, t.world, t.event, t.out, families, key);
    }
  }

  lemma StepKeepsUntracked(w: World, w': World, ev: Event, out: Outcome, families: set<Family>, key: string)
    requires Step(w, w', ev, out, families) && key !in w.podAddrs && !Readds(ev, out, key)
    ensures key !in w'.podAddrs
  {
  }

  /** Once a pod is released it stays untracked until an addPod of it completes, and deleting it again changes
      neither the index nor a tunnel nor a route, whatever other pods did meanwhile. */
  lemma {:induction false} ReleaseHappensOnce(t: Trace, key: string, w': World, out: Outcome, families: set<Family>)
    requires IsRun(t, families) && NeverAdded(t, key) && key !in First(t).podAddrs
    requires DelStep(t.world, w', key, out)
    ensures out == Done && w' == t.world.(gauge := |t.world.podAddrs|)
  {
    StaysUntracked(t, key, families);
    DeleteUntracked(t.world, w', key, out);
  }

  // ---- the wedge -----------------------------------------------------------------------------------

  /** The pod is tracked but its first address has lost its index entry. */
  ghost predicate Wedged(w: World, key: string) {
    Listed(w, key) != [] && !InIndex(w.peers, key, Listed(w, key)[0])
  }

  lemma {:induction false} WedgedCannotBeDeleted(w: World, w': World, key: string, out: Outcome)
    requires Wedged(w, key) && DelStep(w, w', key, out)
    ensures out == NotIndexed && w' == w
  {
    assert !AllIndexed(w.peers, key, Listed(w, key));
    forall i: nat | DelCut(w, w', key, i)
      ensures i == 0 && w' == w
    {
      WedgedCut(w, w', key, i);
    }
  }

  lemma {:induction false} WedgedCut(w: World, w': World, key: string, i: nat)
    requires Wedged(w, key) && DelCut(w, w', key, i)
    ensures i == 0 && w' == w
  {
  }

  lemma {:induction false} RemovalKeepsWedge(w: World, w': World, k: string, out: Outcome, key: string)
    requires Wedged(w, key) && DelStep(w, w', k, out)
    ensures Wedged(w', key) && Listed(w', key) == Listed(w, key)
  {
    var a := Listed(w, key)[0];
    if k == key {
      WedgedCannotBeDeleted(w, w', key, out);
    } else if out == Done {
      UnregisterIndex(w.peers, k, Listed(w, k), key, a);
    } else {
      var i: nat :| DelCut(w, w', k, i);
      UnregisterIndex(w.peers, k, Listed(w, k)[..i], key, a);
    }
  }

  /** A step ends the wedge exactly when it is a completed addPod of the pod; the pod can then be removed again. */
  lemma {:induction false} WedgeEndsIff(w: World, w': World, ev: Event, out: Outcome, families: set<Family>, key: string)
    requires Wedged(w, key) && Step(w, w', ev, out, families)
    ensures Wedged(w', key) <==> !Readds(ev, out, key)
    ensures Readds(ev, out, key) && Distinct(ev.ips) ==> AllIndexed(w'.peers, key, Listed(w', key))
  {
    match ev
    case AddPod(k, ips) =>
      forall a
        ensures InIndex(Register(w.peers, k, ips), key, a) <==> InIndex(w.peers, key, a) || (k == key && a in ips)
      {
        RegisterIndex(w.peers, k, ips, key, a);
      }
    case DelPod(k) =>
      RemovalKeepsWedge(w, w', k, out, key);
    case NoEvent =>
  }

  lemma {:induction false} CutWedges(w: World, w': World, key: string, i: nat)
    requires DelCut(w, w', key, i) && i > 0
    ensures Wedged(w', key)
  {
  }

  /** A removal cut short after its first address wedges the pod: in every continuation in which no addPod of
      it completes, no removal of it ever does. */
  lemma {:induction false} HalfRemovedIsStuck(w: World, i: nat, t: Trace, key: string, families: set<Family>)
    requires DelCut(w, First(t), key, i) && i > 0
    requires IsRun(t, families) && NeverAdded(t, key)
    ensures Wedged(t.world, key)
    ensures t.Then? && t.event == DelPod(key) ==> t.out == NotIndexed
  {
    if t.Start? {
      CutWedges(w, t.world, key, i);
    } else {
      HalfRemovedIsStuck(w, i, t.before, key, families);
      WedgeEndsIff(t.before.world, t.world, t.event, t.out, families, key);
      if t.event == DelPod(key) {
        WedgedCannotBeDeleted(t.before.world, t.world, key, t.out);
      }
    }
  }

  // ---- what an unchanged list cannot repair ----------------------------------------------------------

  /** An addPod with the list already recorded touches no tunnel and no route. So if deletions were cut
      short and the pod then returns to its old addresses, a tunnel taken down meanwhile stays down. */
  lemma {:induction false} SameListRepairsNothing(w: World, key: string, families: set<Family>)
    requires key in w.podAddrs
    ensures var w' := AfterAdd(w, key, w.podAddrs[key], families);
            && w'.tunnels == w.tunnels && w'.routed == w.routed
            && (Covered(w', families) <==> Covered(w, families))
  {
    var w' := AfterAdd(w, key, w.podAddrs[key], families);
    assert Adds(w, key, w.podAddrs[key], families) == {} && Drops(w, key, w.podAddrs[key]) == {};
    assert w'.podAddrs == w.podAddrs;
    assert forall k, a :: Lists(w', k, a) <==> Lists(w, k, a);
  }

  // ---- stale index entries ---------------------------------------------------------------------------

  /** The index has an entry for an address the pod no longer lists. */
  predicate Stale(w: World, key: string, a: IP) {
    InIndex(w.peers, key, a) && !Lists(w, key, a)
  }

  /** Where the index was exact, an update leaves stale entries for exactly the addresses it drops. */
  lemma {:induction false} DropsBecomeStale(w: World, key: string, ips: seq<IP>, families: set<Family>, k: string, a: IP)
    requires InIndex(w.peers, k, a) <==> Lists(w, k, a)
    ensures Stale(AfterAdd(w, key, ips, families), k, a) <==> k == key && a in Drops(w, key, ips)
  {
  }

  lemma {:induction false} StepKeepsStale(
    w: World, w': World, ev: Event, out: Outcome, families: set<Family>, key: string, a: IP)
    requires Stale(w, key, a) && Step(w, w', ev, out, families)
    requires ev.AddPod? ==> (ev.key == key ==> a !in ev.ips) && a !in Drops(w, ev.key, ev.ips)
    ensures Stale(w', key, a)
    ensures a in w.tunnels ==> a in w'.tunnels
  {
    match ev
    case AddPod(k, ips) =>
      RegisterIndex(w.peers, k, ips, key, a);
    case DelPod(k) =>
      if out == Done {
        UnregisterIndex(w.peers, k, Listed(w, k), key, a);
      } else {
        var i: nat :| DelCut(w, w', k, i);
        CutKeepsStale(w, w', k, i, key, a);
      }
    case NoEvent =>
  }

  lemma {:induction false} CutKeepsStale(w: World, w': World, k: string, i: nat, key: string, a: IP)
    requires Stale(w, key, a) && DelCut(w, w', k, i)
    ensures Stale(w', key, a) && (a in w.tunnels ==> a in w'.tunnels)
  {
    UnregisterIndex(w.peers, k, Listed(w, k)[..i], key, a);
    assert a in Listed(w, k)[..i] ==> a in Listed(w, k);
  }

  /** The pod is not added with the address again, and no update drops the address. */
  ghost predicate LeftAlone(t: Trace, key: string, a: IP) {
    t.Then? ==>
      && LeftAlone(t.before, key, a)
      && (t.event.AddPod? ==> && (t.event.key == key ==> a !in t.event.ips)
                              && a !in Drops(t.before.world, t.event.key, t.event.ips))
  }

  /** A stale entry never goes away by itself, and while it is there no removal of any pod takes the
      tunnel down: the tunnel outlives every pod that lists the address. */
  lemma {:induction false} StaleEntryLeaksTunnel(t: Trace, key: string, a: IP, families: set<Family>)
    requires IsRun(t, families) && LeftAlone(t, key, a)
    requires Stale(First(t), key, a) && a in First(t).tunnels
    ensures Stale(t.world, key, a) && a in t.world.tunnels
  {
    if t.Then? {
      StaleEntryLeaksTunnel(t.before, key, a, families);
      StepKeepsStale(t.before.world, t.world, t.event, t.out, families, key, a);
    }
  }

  // ---- leaked tunnels --------------------------------------------------------------------------------

  /** The tunnel is up and no tracked pod lists the address. */
  ghost predicate Leaked(w: World, a: IP) {
    a in w.tunnels && forall k :: !Lists(w, k, a)
  }

  /** Removing the last pod that lists an address leaks the tunnel exactly when some other pod's entry for
      the address is stale. */
  lemma {:induction false} LastReleaseLeaksIff(w: World, w': World, key: string, a: IP)
    requires IndexOk(w) && DelStep(w, w', key, Done)
    requires Lists(w, key, a) && a in w.tunnels && forall k | k != key :: !Lists(w, k, a)
    ensures Leaked(w', a) <==> exists k :: k != key && Stale(w, k, a)
  {
    assert forall k :: Lists(w', k, a) ==> k != key && Lists(w, k, a);
    assert InIndex(w.peers, key, a);
    if k :| k in w.peers[a] && k != key {
      assert Stale(w, k, a);
    } else {
      assert w.peers[a] == {key};
    }
  }

  /** The tunnel is left from before the watcher, or was opened by an addPod that failed; it stayed up since, and
      no addPod that lists the address has completed. */
  ghost predicate Abandoned(t: Trace, a: IP) {
    && a in t.world.tunnels
    && (t.Then? ==>
          && !(t.event.AddPod? && t.out == Done && a in t.event.ips)
          && if a in t.before.world.tunnels then Abandoned(t.before, a) else t.event.AddPod? && t.out != Done)
  }

  predicate Indexed(w: World, a: IP) {
    a in w.peers && w.peers[a] != {}
  }

  lemma {:induction false} ReleaseKeepsIndexed(w: World, key: string, addrs: seq<IP>, a: IP)
    requires AllIndexed(w.peers, key, addrs) && Indexed(w, a) && a in AfterRelease(w, key, addrs).tunnels
    ensures Indexed(AfterRelease(w, key, addrs), a)
  {
    if a in addrs {
      assert InIndex(w.peers, key, a);
      assert w.peers[a] != {key};
    }
  }

  /** A tunnel that stays up keeps its index entry through every step. */
  lemma {:induction false} StepKeepsIndexed(w: World, w': World, ev: Event, out: Outcome, families: set<Family>, a: IP)
    requires Step(w, w', ev, out, families) && Indexed(w, a) && a in w'.tunnels
    ensures Indexed(w', a)
  {
    match ev
    case AddPod(key, ips) =>
      var k :| k in w.peers[a];
      RegisterIndex(w.peers, key, ips, k, a);
    case DelPod(key) =>
      if out == Done {
        ReleaseKeepsIndexed(w, key, Listed(w, key), a);
      } else {
        var i: nat :| DelCut(w, w', key, i);
        ReleaseKeepsIndexed(w, key, Listed(w, key)[..i], a);
      }
    case NoEvent =>
  }

  lemma {:induction false} StepOpens(w: World, w': World, ev: Event, out: Outcome, families: set<Family>, a: IP)
    requires Step(w, w', ev, out, families) && a !in w.tunnels && a in w'.tunnels
    ensures ev.AddPod? && a in ev.ips
  {
  }

  lemma {:induction false} CompletedIsIndexed(w: World, key: string, ips: seq<IP>, families: set<Family>, a: IP)
    requires a in ips
    ensures Indexed(AfterAdd(w, key, ips, families), a)
  {
    RegisterIndex(w.peers, key, ips, key, a);
  }

  lemma {:induction false} TunnelsAccountedFor(t: Trace, families: set<Family>, a: IP)
    requires IsRun(t, families) && a in t.world.tunnels
    ensures Indexed(t.world, a) || Abandoned(t, a)
  {
    if t.Then? {
      var w, w' := t.before.world, t.world;
      if t.event.AddPod? && t.out == Done && a in t.event.ips {
        CompletedIsIndexed(w, t.event.key, t.event.ips, families, a);
      } else if a in w.tunnels {
        TunnelsAccountedFor(t.before, families, a);
        if Indexed(w, a) {
          StepKeepsIndexed(w, w', t.event, t.out, families, a);
        }
      } else {
        StepOpens(w, w', t.event, t.out, families, a);
      }
    }
  }

  /** Over every run, with failures anywhere and any tunnels left by an earlier process, a leaked tunnel has a
      stale index entry or is abandoned. */
  lemma {:induction false} LeaksExplained(t: Trace, families: set<Family>, a: IP)
    requires IsRun(t, families) && Leaked(t.world, a)
    ensures (exists k :: Stale(t.world, k, a)) || Abandoned(t, a)
  {
    TunnelsAccountedFor(t, families, a);
    if Indexed(t.world, a) {
      var k :| k in t.world.peers[a];
      assert Stale(t.world, k, a);
    }
  }

  /** An addPod that fails after AddPeer, and the pod is deleted before a retry: the tunnel is up, nobody lists the
      address and the index has no entry for it. */
  lemma {:induction false} AbandonedAddLeaks(p: string, a: IP, families: set<Family>)
    requires a.family in families
    ensures var w := World(map[], map[], {a}, {}, 0);
            var t := Then(Start(World(map[], map[], {}, {}, 0)), AddPod(p, [a]), AddFailed, w);
            var t' := Then(t, DelPod(p), Done, w);
            IsRun(t', families) && Leaked(w, a) && Abandoned(t', a) && forall k :: !Stale(w, k, a)
  {
    var w0 := World(map[], map[], {}, {}, 0);
    var w := World(map[], map[], {a}, {}, 0);
    assert a in [a] && a in Adds(w0, p, [a], families);
    assert AddStep(w0, w, p, [a], families, AddFailed);
    assert Listed(w, p) == [] && AfterDel(w, p) == w;
    var t := Then(Start(w0), AddPod(p, [a]), AddFailed, w);
    assert IsRun(t, families);
  }

  /** Nobody lists the address, but the index has an entry of `p` for it. */
  ghost predicate Orphaned(w: World, p: string, a: IP) {
    InIndex(w.peers, p, a) && forall k :: !Lists(w, k, a)
  }

  lemma {:induction false} ListsAfterAdd(w: World, key: string, ips: seq<IP>, families: set<Family>, k: string, a: IP)
    ensures Lists(AfterAdd(w, key, ips, families), k, a) <==> if k == key then a in ips else Lists(w, k, a)
  {
  }

  lemma {:induction false} MoveOrphans(w: World, p: string, a: IP, ips: seq<IP>, families: set<Family>)
    requires InIndex(w.peers, p, a) && a !in ips && forall k | k != p :: !Lists(w, k, a)
    ensures Orphaned(AfterAdd(w, p, ips, families), p, a)
  {
    RegisterIndex(w.peers, p, ips, p, a);
    forall k
      ensures !Lists(AfterAdd(w, p, ips, families), k, a)
    {
      ListsAfterAdd(w, p, ips, families, k, a);
    }
  }

  lemma {:induction false} NewAddressConnects(w: World, q: string, a: IP, families: set<Family>)
    requires q !in w.podAddrs && a.family in families
    ensures a in AfterAdd(w, q, [a], families).tunnels
  {
    assert a in [a];
    assert a in Adds(w, q, [a], families);
  }

  lemma {:induction false} ReuseConnects(w: World, p: string, q: string, a: IP, families: set<Family>)
    requires Orphaned(w, p, a) && q !in w.podAddrs && a.family in families
    ensures var w' := AfterAdd(w, q, [a], families);
            && a in w'.tunnels && InIndex(w'.peers, p, a) && AllIndexed(w'.peers, q, [a]) && Listed(w', q) == [a]
            && forall k | k != q :: !Lists(w', k, a)
  {
    NewAddressConnects(w, q, a, families);
    RegisterIndex(w.peers, q, [a], p, a);
    RegisterIndex(w.peers, q, [a], q, a);
    forall k | k != q
      ensures !Lists(AfterAdd(w, q, [a], families), k, a)
    {
      ListsAfterAdd(w, q, [a], families, k, a);
    }
  }

  lemma {:induction false} RemovalLeaks(w: World, p: string, q: string, a: IP)
    requires p != q && a in w.tunnels && InIndex(w.peers, p, a) && AllIndexed(w.peers, q, [a]) && Listed(w, q) == [a]
    requires forall k | k != q :: !Lists(w, k, a)
    ensures DelStep(w, AfterDel(w, q), q, Done) && Leaked(AfterDel(w, q), a)
  {
    assert w.peers[a] != {q};
    assert forall k :: Lists(AfterDel(w, q), k, a) ==> k != q && Lists(w, k, a);
  }

  /** A completed addPod at the end of a run. */
  function Extend(t: Trace, key: string, ips: seq<IP>, families: set<Family>): Trace {
    Then(t, AddPod(key, ips), Done, AfterAdd(t.world, key, ips, families))
  }

  lemma {:induction false} ExtendIsRun(t: Trace, key: string, ips: seq<IP>, families: set<Family>)
    requires IsRun(t, families)
    ensures IsRun(Extend(t, key, ips, families), families)
  {
  }

  /** From an empty watcher: p has the address a, p moves to b, q gets a. */
  function ReuseRun(p: string, q: string, a: IP, b: IP, families: set<Family>): Trace {
    var t := Extend(Start(World(map[], map[], {}, {}, 0)), p, [a], families);
    Extend(Extend(t, p, [b], families), q, [a], families)
  }

  /** When q then goes away, the tunnel to a is up and nobody lists a. */
  lemma {:induction false} MovedAddressLeaks(p: string, q: string, a: IP, b: IP, families: set<Family>)
    requires p != q && a != b && a.family in families
    ensures var t := ReuseRun(p, q, a, b, families);
            var t' := Then(t, DelPod(q), Done, AfterDel(t.world, q));
            IsRun(t', families) && Leaked(t'.world, a)
  {
    var t0 := Start(World(map[], map[], {}, {}, 0));
    var t1 := Extend(t0, p, [a], families);
    var t2 := Extend(t1, p, [b], families);
    var t3 := Extend(t2, q, [a], families);
    RegisterIndex(t0.world.peers, p, [a], p, a);
    MoveOrphans(t1.world, p, a, [b], families);
    ReuseConnects(t2.world, p, q, a, families);
    RemovalLeaks(t3.world, p, q, a);
    ExtendIsRun(t0, p, [a], families);
    ExtendIsRun(t1, p, [b], families);
    ExtendIsRun(t2, q, [a], families);
  }

  /** From an empty watcher: p and q have the address a, p moves to b. */
  function ShareRun(p: string, q: string, a: IP, b: IP, families: set<Family>): Trace {
    var t := Extend(Start(World(map[], map[], {}, {}, 0)), p, [a], families);
    Extend(Extend(t, q, [a], families), p, [b], families)
  }

  lemma {:induction false} DroppedLosesTunnel(w: World, key: string, a: IP, ips: seq<IP>, families: set<Family>)
    requires Listed(w, key) == [a] && a !in ips
    ensures a !in AfterAdd(w, key, ips, families).tunnels
  {
    assert a in Listed(w, key);
    assert a in Drops(w, key, ips);
  }

  /** The update drops the tunnel that q still lists. */
  lemma {:induction false} SharedDropBreaksCoverage(p: string, q: string, a: IP, b: IP, families: set<Family>)
    requires p != q && a != b && a.family in families
    ensures var t := ShareRun(p, q, a, b, families);
            IsRun(t, families) && Lists(t.world, q, a) && a !in t.world.tunnels && !Covered(t.world, families)
  {
    var t0 := Start(World(map[], map[], {}, {}, 0));
    var t1 := Extend(t0, p, [a], families);
    var t2 := Extend(t1, q, [a], families);
    ExtendIsRun(t0, p, [a], families);
    ExtendIsRun(t1, q, [a], families);
    ExtendIsRun(t2, p, [b], families);
    DroppedLosesTunnel(t2.world, p, a, [b], families);
    assert Lists(Extend(t2, p, [b], families).world, q, a);
  }
}
