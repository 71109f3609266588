/** One-time initialisation guarded by a dummy link that is created last. */
module Bootstrap {
  import opened Cidr
  import opened Kernel
  import opened LinkNames

  /** The gateway's policy rule and the table of its return routes. */
  const RETURN_PRIO := 2000
  const RETURN_TABLE := 118

  /** The settings of FoUTunnel.Init for one family, in order. */
  function TunnelSteps(f: Family): seq<Setup> {
    if f.V4? then
      [ModProbe(V4), FouPort(V4), RpFilter("default"), RpFilter("all"), Forwarding(V4), Iptables(V4), ChecksumFill(V4)]
    else
      [ModProbe(V6), FouPort(V6), Forwarding(V6), Iptables(V6), ChecksumFill(V6)]
  }

  /** The settings of Egress.Init for one family, in order. */
  function GatewaySteps(f: Family): seq<Setup> {
    [Iptables(f), Masquerade(f), ReturnRule(f, RETURN_PRIO, RETURN_TABLE)]
  }

  function ForFamilies(steps: Family -> seq<Setup>, v4: bool, v6: bool): seq<Setup> {
    (if v4 then steps(V4) else []) + (if v6 then steps(V6) else [])
  }

  function FouSteps(local4: bool, local6: bool): seq<Setup> {
    ForFamilies(TunnelSteps, local4, local6)
  }

  function EgressSteps(ipv4: bool, ipv6: bool): seq<Setup> {
    ForFamilies(GatewaySteps, ipv4, ipv6)
  }

  datatype Boot = Boot(done: set<Setup>, marked: bool)

  function StepSet(steps: seq<Setup>): set<Setup> {
    set s | s in steps
  }

  /** A setting of the list that has been made and cannot be made again. */
  predicate Blocked(steps: seq<Setup>, b: Boot) {
    exists i | 0 <= i < |steps| :: Once(steps[i]) && steps[i] in b.done
  }

  predicate Stuck(steps: seq<Setup>, b: Boot) {
    !b.marked && Blocked(steps, b)
  }

  /** One attempt: nothing if the marker is there; otherwise some leading settings are made, and the
      marker only after all of them. `clean` says that no kernel call failed by itself. */
  ghost predicate Attempt(steps: seq<Setup>, b: Boot, b': Boot, err: bool, clean: bool) {
    if b.marked then
      b' == b && (clean ==> !err)
    else
      && b'.marked == !err
      && exists i: nat | i <= |steps| ::
           && b'.done == b.done + StepSet(steps[..i])
           && (!err ==> i == |steps|)
           && (forall j | 0 <= j < i :: !(Once(steps[j]) && steps[j] in b.done))
           && (err && clean ==> i < |steps| && Once(steps[i]) && steps[i] in b.done)
  }

  /** Nothing but the marker is new among rules, routes and links. */
  predicate OnlyMarked(n: Net, n': Net, marker: string) {
    n' == n || (marker !in n.links && n' == n.(links := n.links[marker := Dummy]))
  }

  /** Reads the marker, makes the settings in order, sets the marker. A crash is a stop at any call. */
  method InitOnce(host: Host, steps: seq<Setup>, marker: string) returns (err: bool)
    requires host.Valid() && Distinct(steps)
    modifies host
    ensures host.Valid() && old(host.faults) <= host.faults
    ensures Attempt(steps, Boot(old(host.setup), marker in old(host.net).links),
                    Boot(host.setup, marker in host.net.links), err, host.faults == old(host.faults))
    ensures OnlyMarked(old(host.net), host.net, marker)
  {
    var e := host.LinkByName(marker);
    if e.Ok? {
      return false;
    }
    ghost var start := host.setup;
    assert start == start + StepSet(steps[..0]);
    if !e.NotFound? {
      return true;
    }
    for i := 0 to |steps|
      invariant host.Valid() && host.net == old(host.net) && host.faults == old(host.faults)
      invariant host.setup == start + StepSet(steps[..i])
      invariant forall j | 0 <= j < i :: !(Once(steps[j]) && steps[j] in start)
    {
      assert steps[..i + 1] == steps[..i] + [steps[i]];
      assert steps[i] !in steps[..i];
      e := host.Configure(steps[i]);
      if !e.Ok? {
        return true;
      }
    }
    e := host.LinkAdd(marker, Dummy, V4);
    err := !e.Ok?;
  }

  ghost predicate MarkerHonest(steps: seq<Setup>, b: Boot) {
    b.marked ==> StepSet(steps) <= b.done
  }

  /** A sequence of attempts; `boot` is the state reached. */
  datatype History =
    | Fresh(boot: Boot)
    | Tried(before: History, err: bool, clean: bool, boot: Boot)

  ghost predicate IsHistory(steps: seq<Setup>, t: History) {
    t.Tried? ==> IsHistory(steps, t.before) && Attempt(steps, t.before.boot, t.boot, t.err, t.clean)
  }

  function Origin(t: History): Boot {
    if t.Fresh? then t.boot else Origin(t.before)
  }

  lemma {:induction false} AttemptKeepsHonest(steps: seq<Setup>, b: Boot, b': Boot, err: bool, clean: bool)
    requires MarkerHonest(steps, b) && Attempt(steps, b, b', err, clean)
    ensures MarkerHonest(steps, b') && b.done <= b'.done
  {
  }

  /** Over every sequence of attempts that fail or crash anywhere, the marker is there only when every
      setting has been made, and an attempt that finds it changes nothing. */
  lemma {:induction false} MarkerCommits(steps: seq<Setup>, t: History)
    requires IsHistory(steps, t) && MarkerHonest(steps, Origin(t))
    ensures MarkerHonest(steps, t.boot)
    ensures t.Tried? && t.before.boot.marked ==> t.boot == t.before.boot
  {
    if t.Tried? {
      MarkerCommits(steps, t.before);
      AttemptKeepsHonest(steps, t.before.boot, t.boot, t.err, t.clean);
    }
  }

  /** An attempt makes settings of its own list only. */
  lemma {:induction false} NothingElseMade(steps: seq<Setup>, t: History)
    requires IsHistory(steps, t)
    ensures t.boot.done <= Origin(t).done + StepSet(steps)
  {
    if t.Tried? {
      NothingElseMade(steps, t.before);
      AttemptMakes(steps, t.before.boot, t.boot, t.err, t.clean);
    }
  }

  lemma {:induction false} AttemptMakes(steps: seq<Setup>, b: Boot, b': Boot, err: bool, clean: bool)
    requires Attempt(steps, b, b', err, clean)
    ensures b'.done <= b.done + StepSet(steps)
  {
  }

  /** The settings a tunnel end point needs for one family. */
  function TunnelNeeds(f: Family): set<Setup> {
    {ModProbe(f), FouPort(f), Forwarding(f), Iptables(f), ChecksumFill(f)}
    + if f.V4? then {RpFilter("default"), RpFilter("all")} else {}
  }

  /** The settings a gateway needs for one family. */
  function GatewayNeeds(f: Family): set<Setup> {
    {Iptables(f), Masquerade(f), ReturnRule(f, 2000, 118)}
  }

  lemma {:induction false} TunnelStepSet(f: Family)
    ensures StepSet(TunnelSteps(f)) == TunnelNeeds(f)
  {
  }

  lemma {:induction false} TunnelNeedsApart()
    ensures TunnelNeeds(V4) !! TunnelNeeds(V6)
  {
  }

  /** Everything a family needs has been made. */
  predicate Served(needs: Family -> set<Setup>, b: Boot, f: Family) {
    needs(f) <= b.done
  }

  /** Nothing a family needs has been made. */
  predicate Spared(needs: Family -> set<Setup>, b: Boot, f: Family) {
    needs(f) !! b.done
  }

  /** Once the marker is there each configured family is fully served, and a family that is not configured is
      never touched. */
  ghost predicate PerFamily(needs: Family -> set<Setup>, b: Boot, v4: bool, v6: bool) {
    && (b.marked && v4 ==> Served(needs, b, V4))
    && (b.marked && v6 ==> Served(needs, b, V6))
    && (!v4 ==> Spared(needs, b, V4))
    && (!v6 ==> Spared(needs, b, V6))
  }

  lemma {:induction false} CommitsPerFamily(
    needs: Family -> set<Setup>, steps: Family -> seq<Setup>, t: History, v4: bool, v6: bool)
    requires StepSet(steps(V4)) == needs(V4) && StepSet(steps(V6)) == needs(V6) && needs(V4) !! needs(V6)
    requires IsHistory(ForFamilies(steps, v4, v6), t) && Origin(t) == Boot({}, false)
    ensures PerFamily(needs, t.boot, v4, v6)
  {
    var all := ForFamilies(steps, v4, v6);
    MarkerCommits(all, t);
    NothingElseMade(all, t);
    assert StepSet(all) == (if v4 then StepSet(steps(V4)) else {}) + (if v6 then StepSet(steps(V6)) else {});
  }

  /** Over every sequence of attempts to set up a tunnel end point in a new namespace, failing or crashing
      anywhere: the families in use are served completely or the marker is missing, the other is spared. */
  lemma {:induction false} FouCommits(local4: bool, local6: bool, t: History)
    requires IsHistory(FouSteps(local4, local6), t) && Origin(t) == Boot({}, false)
    ensures PerFamily(TunnelNeeds, t.boot, local4, local6)
  {
    TunnelStepSet(V4);
    TunnelStepSet(V6);
    TunnelNeedsApart();
    CommitsPerFamily(TunnelNeeds, TunnelSteps, t, local4, local6);
  }

  /** The same for the gateway. */
  lemma {:induction false} EgressCommits(ipv4: bool, ipv6: bool, t: History)
    requires IsHistory(EgressSteps(ipv4, ipv6), t) && Origin(t) == Boot({}, false)
    ensures PerFamily(GatewayNeeds, t.boot, ipv4, ipv6)
  {
    CommitsPerFamily(GatewayNeeds, GatewaySteps, t, ipv4, ipv6);
  }

  /** Without a kernel fault an attempt succeeds exactly when the marker is there or no unrepeatable
      setting was left behind by an earlier attempt. */
  lemma CleanAttemptSucceedsIff(steps: seq<Setup>, b: Boot, b': Boot, err: bool)
    requires Attempt(steps, b, b', err, true)
    ensures !err <==> b.marked || !Blocked(steps, b)
  {
  }

  lemma {:induction false} AttemptStaysBlocked(steps: seq<Setup>, b: Boot, b': Boot, err: bool, clean: bool)
    requires Stuck(steps, b) && Attempt(steps, b, b', err, clean)
    ensures err && Stuck(steps, b')
  {
  }

  /** An attempt that failed after an unrepeatable setting can never be completed by retrying. */
  lemma {:induction false} BlockedForever(steps: seq<Setup>, t: History)
    requires IsHistory(steps, t) && Stuck(steps, Origin(t))
    ensures Stuck(steps, t.boot)
    ensures t.Tried? ==> t.err
  {
    if t.Tried? {
      BlockedForever(steps, t.before);
      AttemptStaysBlocked(steps, t.before.boot, t.boot, t.err, t.clean);
    }
  }

  /** In a fresh namespace an attempt stopped after `i` settings. For the tunnel, a later fault-free
      attempt succeeds exactly when the port of the first family had not been opened. */
  lemma {:induction false} FouRetrySucceedsIff(local4: bool, local6: bool, i: nat, b': Boot, err: bool)
    requires local4 || local6
    requires i <= |FouSteps(local4, local6)|
    requires Attempt(FouSteps(local4, local6), Boot(StepSet(FouSteps(local4, local6)[..i]), false), b', err, true)
    ensures !err <==> i <= 1
  {
    RetrySucceedsIff(FouSteps(local4, local6), 1, i, b', err);
  }

  /** For the gateway, exactly when the policy rule of the first family had not been added. */
  lemma {:induction false} EgressRetrySucceedsIff(ipv4: bool, ipv6: bool, i: nat, b': Boot, err: bool)
    requires ipv4 || ipv6
    requires i <= |EgressSteps(ipv4, ipv6)|
    requires Attempt(EgressSteps(ipv4, ipv6), Boot(StepSet(EgressSteps(ipv4, ipv6)[..i]), false), b', err, true)
    ensures !err <==> i <= 2
  {
    RetrySucceedsIff(EgressSteps(ipv4, ipv6), 2, i, b', err);
  }

  lemma {:induction false} RetrySucceedsIff(steps: seq<Setup>, first: nat, i: nat, b': Boot, err: bool)
    requires first < |steps| && Once(steps[first]) && forall j | 0 <= j < first :: !Once(steps[j])
    requires i <= |steps| && Attempt(steps, Boot(StepSet(steps[..i]), false), b', err, true)
    ensures !err <==> i <= first
  {
  }
}
