/** The deployment and the service the controller derives from an Egress, over its whole life. */
module PodTemplates {
  import opened Options

  const GW := "egress-gw"

  /** `rest` stands for the fields of a container that the model does not name. */
  datatype Container = Container(name: string, rest: string)

  datatype PodSpec = PodSpec(serviceAccount: string, volumes: seq<string>, containers: seq<Container>, rest: string)

  datatype Template = Template(labels: map<string, string>, annotations: map<string, string>, spec: PodSpec)

  datatype Egress = Egress(name: string, replicas: int, template: Option<Template>)

  /** How the controller completes the unnamed fields of the gateway's container: image, command, environment,
      probes and so on. */
  type Rewrite = string -> string

  function Complete(c: Container, rewrite: Rewrite): Container {
    Container(GW, rewrite(c.rest))
  }

  function SelectorLabels(name: string): map<string, string> {
    map["app.kubernetes.io/name" := "egress-cni",
        "app.kubernetes.io/instance" := name,
        "app.kubernetes.io/component" := "egress"]
  }

  predicate Matches(selector: map<string, string>, labels: map<string, string>) {
    forall k | k in selector :: k in labels && labels[k] == selector[k]
  }

  /** The selector of an Egress asks for the program, the component and the Egress by name. */
  lemma {:induction false} SelectorMeaning(name: string, labels: map<string, string>)
    ensures Matches(SelectorLabels(name), labels)
       <==> && "app.kubernetes.io/name" in labels && labels["app.kubernetes.io/name"] == "egress-cni"
            && "app.kubernetes.io/instance" in labels && labels["app.kubernetes.io/instance"] == name
            && "app.kubernetes.io/component" in labels && labels["app.kubernetes.io/component"] == "egress"
  {
    LabelKeys();
    var sel := SelectorLabels(name);
    assert forall k :: k in sel <==>
      k == "app.kubernetes.io/name" || k == "app.kubernetes.io/instance" || k == "app.kubernetes.io/component";
  }

  lemma LabelKeys()
    ensures "app.kubernetes.io/name" != "app.kubernetes.io/instance"
    ensures "app.kubernetes.io/name" != "app.kubernetes.io/component"
    ensures "app.kubernetes.io/instance" != "app.kubernetes.io/component"
  {
    assert "app.kubernetes.io/name"[18] == 'n' && "app.kubernetes.io/instance"[18] == 'i';
    assert "app.kubernetes.io/component"[18] == 'c';
  }

  /** Whatever labels users set, the pods of an Egress are selected by its own name and no other. */
  lemma {:induction false} SelectsOwnPodsOnly(name: string, user: map<string, string>, eg: string)
    ensures Matches(SelectorLabels(name), user + SelectorLabels(eg)) <==> name == eg
  {
    LabelKeys();
    SelectorMeaning(name, user + SelectorLabels(eg));
  }

  // ---- containers --------------------------------------------------------------------------------

  /** `k` is the last container with the gateway's name. */
  ghost predicate LastNamed(cs: seq<Container>, k: nat) {
    k < |cs| && cs[k].name == GW && forall j | k < j < |cs| :: cs[j].name != GW
  }

  ghost predicate NoneNamed(cs: seq<Container>) {
    forall j | 0 <= j < |cs| :: cs[j].name != GW
  }

  /** Exactly one container of `after` is the completed gateway container: the last one of that name, or a
      new first one; all others are those of `before`, in order. */
  ghost predicate GatewayCompleted(before: seq<Container>, after: seq<Container>, rewrite: Rewrite) {
    if NoneNamed(before) then after == [Complete(Container("", ""), rewrite)] + before
    else exists k: nat :: LastNamed(before, k) && after == before[k := Complete(before[k], rewrite)]
  }

  lemma {:induction false} GatewayCompletedUnique(
    before: seq<Container>, a: seq<Container>, b: seq<Container>, rewrite: Rewrite)
    requires GatewayCompleted(before, a, rewrite) && GatewayCompleted(before, b, rewrite)
    ensures a == b
  {
  }

  method CompleteGateway(containers: seq<Container>, rewrite: Rewrite) returns (r: seq<Container>)
    ensures GatewayCompleted(containers, r, rewrite)
  {
    var found := -1;
    for i := 0 to |containers|
      invariant -1 <= found < i
      invariant found == -1 ==> forall j | 0 <= j < i :: containers[j].name != GW
      invariant found >= 0 ==> containers[found].name == GW && forall j | found < j < i :: containers[j].name != GW
    {
      if containers[i].name != GW {
        continue;
      }
      found := i;
    }
    if found == -1 {
      return [Complete(Container("", ""), rewrite)] + containers;
    }
    assert LastNamed(containers, found);
    r := containers[found := Complete(containers[found], rewrite)];
  }

  /** "run" is added unless present; "modules" always. */
  method AddVolumes(vols: seq<string>) returns (r: seq<string>)
    ensures r == vols + (if "run" in vols then [] else ["run"]) + ["modules"]
  {
    var noRun := true;
    for i := 0 to |vols|
      invariant noRun && "run" !in vols[..i]
    {
      if vols[i] == "run" {
        noRun := false;
        break;
      }
      assert vols[..i + 1] == vols[..i] + [vols[i]];
    }
    assert vols[..|vols|] == vols;
    r := vols;
    if noRun {
      r := r + ["run"];
    }
    r := r + ["modules"];
  }

  // ---- the template ------------------------------------------------------------------------------

  function UserSpec(eg: Egress): PodSpec {
    if eg.template.Some? then eg.template.value.spec else PodSpec("", [], [], "")
  }

  function UserLabels(eg: Egress): map<string, string> {
    if eg.template.Some? then eg.template.value.labels else map[]
  }

  function UserAnnotations(eg: Egress): map<string, string> {
    if eg.template.Some? then eg.template.value.annotations else map[]
  }

  /** What reconciling makes of a template: labels and spec come from the Egress alone, annotations are
      laid over the old ones. */
  ghost predicate Reconciled(t: Template, t': Template, eg: Egress, rewrite: Rewrite) {
    var user := UserSpec(eg);
    && t'.labels == UserLabels(eg) + SelectorLabels(eg.name)
    && t'.annotations == t.annotations + UserAnnotations(eg)
    && t'.spec == PodSpec(GW, t'.spec.volumes, t'.spec.containers, user.rest)
    && t'.spec.volumes == user.volumes + (if "run" in user.volumes then [] else ["run"]) + ["modules"]
    && GatewayCompleted(user.containers, t'.spec.containers, rewrite)
  }

  /** What a user asks for in the template of an Egress, as far as it is deployed: annotations and labels (labels of
      the selector excepted), volumes, and containers. Of the containers called egress-gw only the last is completed;
      if there is none, one is added in front. */
  ghost predicate Desired(want: Template, have: Template) {
    && (forall k | k in want.annotations :: k in have.annotations && have.annotations[k] == want.annotations[k])
    && (forall k | k in want.labels && k !in SelectorLabels("") :: k in have.labels && have.labels[k] == want.labels[k])
    && have.spec.serviceAccount == "egress-gw" && have.spec.rest == want.spec.rest
    && want.spec.volumes <= have.spec.volumes && "run" in have.spec.volumes && "modules" in have.spec.volumes
    && Deployed(want.spec.containers, have.spec.containers)
  }

  ghost predicate Deployed(want: seq<Container>, have: seq<Container>) {
    && |have| == |want| + (if exists i | 0 <= i < |want| :: want[i].name == "egress-gw" then 0 else 1)
    && (exists i | 0 <= i < |have| :: have[i].name == "egress-gw")
    && var rest := have[|have| - |want|..];
       forall i | 0 <= i < |want| :: KeptOrCompleted(want, i, rest[i])
  }

  /** A container is kept, or is the last one called egress-gw and keeps its name. */
  ghost predicate KeptOrCompleted(want: seq<Container>, i: nat, c: Container)
    requires i < |want|
  {
    || c == want[i]
    || (want[i].name == "egress-gw" && c.name == "egress-gw" && forall j | i < j < |want| :: want[j].name != "egress-gw")
  }

  lemma {:induction false} ContainersDeployed(want: seq<Container>, have: seq<Container>, rewrite: Rewrite)
    requires GatewayCompleted(want, have, rewrite)
    ensures Deployed(want, have)
  {
    if NoneNamed(want) {
      assert have[0].name == "egress-gw" && have[1..] == want;
    } else {
      var k: nat :| LastNamed(want, k) && have == want[k := Complete(want[k], rewrite)];
      assert have[k].name == "egress-gw" && have[0..] == have;
    }
  }

  lemma {:induction false} DesiredIsDeployed(t: Template, t': Template, eg: Egress, rewrite: Rewrite)
    requires Reconciled(t, t', eg, rewrite) && eg.template.Some?
    ensures Desired(eg.template.value, t')
  {
    ContainersDeployed(eg.template.value.spec.containers, t'.spec.containers, rewrite);
    var v := t'.spec.volumes;
    assert v[|v| - 1] == "modules";
    assert "run" !in eg.template.value.spec.volumes ==> v[|v| - 2] == "run";
    assert forall k :: k in SelectorLabels("") <==> k in SelectorLabels(eg.name);
  }

  // ---- the objects of one Egress -----------------------------------------------------------------

  /** A deployment as the API server stores it. */
  datatype Depl = Depl(terminating: bool, labels: map<string, string>, selector: map<string, string>,
                       replicas: Option<int>, template: Template)

  datatype Svc = Svc(terminating: bool, labels: map<string, string>, selector: map<string, string>)

  /** `status` is the selector published in the status of the Egress. */
  datatype Store = Store(depl: Option<Depl>, svc: Option<Svc>, status: map<string, string>)

  const NEW_DEPL := Depl(false, map[], map[], None, Template(map[], map[], PodSpec("", [], [], "")))
  const NEW_SVC := Svc(false, map[], map[])

  /** What one round makes of a deployment; `created` says that it existed before. */
  ghost predicate DeplMutated(d: Depl, d': Depl, created: bool, eg: Egress, rewrite: Rewrite) {
    if d.terminating then d' == d
    else
      && !d'.terminating && d'.labels == d.labels + SelectorLabels(eg.name)
      && d'.selector == (if created then d.selector else SelectorLabels(eg.name))
      && d'.replicas == Some(eg.replicas)
      && Reconciled(d.template, d'.template, eg, rewrite)
  }

  predicate SvcMutated(s: Svc, s': Svc, eg: Egress) {
    if s.terminating then s' == s
    else s' == Svc(false, s.labels + SelectorLabels(eg.name), SelectorLabels(eg.name))
  }

  /** The deployment in the controller's memory. */
  class Deployment {
    var created: bool
    var terminating: bool
    var labels: map<string, string>
    var selector: map<string, string>
    var replicas: Option<int>
    var template: Template

    function Value(): Depl
      reads this
    {
      Depl(terminating, labels, selector, replicas, template)
    }

    constructor (found: Option<Depl>)
      ensures created == found.Some? && Value() == if found.Some? then found.value else NEW_DEPL
    {
      var d := if found.Some? then found.value else NEW_DEPL;
      created := found.Some?;
      terminating, labels, selector, replicas, template := d.terminating, d.labels, d.selector, d.replicas, d.template;
    }

    method ReconcilePodTemplate(eg: Egress, rewrite: Rewrite)
      modifies this`template
      ensures Reconciled(old(template), template, eg, rewrite)
      ensures eg.template.Some? ==> Desired(eg.template.value, template)
    {
      var target := template.(labels := map[]);
      var spec := PodSpec("", [], [], "");
      match eg.template {
        case Some(desired) =>
          spec := desired.spec;
          target := target.(annotations := target.annotations + desired.annotations, labels := desired.labels);
        case None =>
      }
      target := target.(labels := target.labels + SelectorLabels(eg.name));
      var volumes := AddVolumes(spec.volumes);
      var containers := CompleteGateway(spec.containers, rewrite);
      template := target.(spec := PodSpec(GW, volumes, containers, spec.rest));
      if eg.template.Some? {
        DesiredIsDeployed(old(template), template, eg, rewrite);
      }
    }

    /** The selector is written only for a new object. */
    method Mutate(eg: Egress, rewrite: Rewrite)
      modifies this`labels, this`selector, this`replicas, this`template
      ensures DeplMutated(old(Value()), Value(), created, eg, rewrite)
      ensures terminating ==> Value() == old(Value())
      ensures !terminating ==> replicas == Some(eg.replicas) && Matches(SelectorLabels(eg.name), labels)
                               && Matches(SelectorLabels(eg.name), template.labels)
      ensures !terminating ==> selector == if created then old(selector) else SelectorLabels(eg.name)
    {
      if terminating {
        return;
      }
      labels := labels + SelectorLabels(eg.name);
      if !created {
        selector := SelectorLabels(eg.name);
      }
      if replicas.None? || replicas.value != eg.replicas {
        replicas := Some(eg.replicas);
      }
      ReconcilePodTemplate(eg, rewrite);
    }
  }

  /** The service in the controller's memory. */
  class Service {
    var terminating: bool
    var labels: map<string, string>
    var selector: map<string, string>

    function Value(): Svc
      reads this
    {
      Svc(terminating, labels, selector)
    }

    constructor (s: Svc)
      ensures Value() == s
    {
      terminating, labels, selector := s.terminating, s.labels, s.selector;
    }

    method Mutate(eg: Egress)
      modifies this`labels, this`selector
      ensures SvcMutated(old(Value()), Value(), eg)
      ensures terminating ==> Value() == old(Value())
      ensures !terminating ==> selector == SelectorLabels(eg.name) && Matches(SelectorLabels(eg.name), labels)
    {
      if terminating {
        return;
      }
      labels := labels + SelectorLabels(eg.name);
      selector := SelectorLabels(eg.name);
    }
  }

  // ---- runs ----------------------------------------------------------------------------------------

  /** Who acts on the objects. The controller's three actions say whether they failed; an action of others
      may come between any two of them. */
  datatype Action = Deploy(eg: Egress, err: bool) | Expose(eg: Egress, err: bool) | Publish(err: bool) | Others

  ghost predicate DeployStep(s: Store, s': Store, eg: Egress, rewrite: Rewrite, err: bool) {
    && s' == s.(depl := s'.depl)
    && if err then s'.depl == s.depl
       else s'.depl.Some? && DeplMutated(if s.depl.Some? then s.depl.value else NEW_DEPL, s'.depl.value,
                                         s.depl.Some?, eg, rewrite)
  }

  predicate ExposeStep(s: Store, s': Store, eg: Egress, err: bool) {
    && s' == s.(svc := s'.svc)
    && if err then s'.svc == s.svc
       else s'.svc.Some? && SvcMutated(if s.svc.Some? then s.svc.value else NEW_SVC, s'.svc.value, eg)
  }

  predicate PublishStep(s: Store, s': Store, err: bool) {
    if err then s' == s else s.depl.Some? && s' == s.(status := s.depl.value.selector)
  }

  /** What others may do: edit everything but the deployment's selector, which the API server keeps, start the
      termination of an object, and remove it. Nobody else creates the deployment. */
  predicate OthersStep(s: Store, s': Store) {
    s'.depl.Some? ==> s.depl.Some? && s'.depl.value.selector == s.depl.value.selector
  }

  datatype Trace =
    | Start(store: Store)
    | Then(before: Trace, action: Action, store: Store)

  ghost predicate Step(s: Store, s': Store, action: Action, name: string, rewrite: Rewrite) {
    match action
    case Deploy(eg, err) => eg.name == name && DeployStep(s, s', eg, rewrite, err)
    case Expose(eg, err) => eg.name == name && ExposeStep(s, s', eg, err)
    case Publish(err) => PublishStep(s, s', err)
    case Others => OthersStep(s, s')
  }

  ghost predicate IsRun(t: Trace, name: string, rewrite: Rewrite) {
    t.Then? ==> IsRun(t.before, name, rewrite) && Step(t.before.store, t.store, t.action, name, rewrite)
  }

  function First(t: Trace): Store {
    if t.Start? then t.store else First(t.before)
  }

  /** One complete round of the controller. */
  ghost predicate Round(t: Trace, t': Trace, eg: Egress) {
    && t'.Then? && t'.action == Publish(false)
    && t'.before.Then? && t'.before.action == Expose(eg, false)
    && t'.before.before.Then? && t'.before.before.action == Deploy(eg, false)
    && t'.before.before.before == t
  }

  /** The controller for one Egress. Reads and writes of the API server may fail, which `faults` counts; an object that
      changed since it was read is not written. */
  class Controller {
    const rewrite: Rewrite
    var store: Store
    ghost var faults: nat

    constructor (rewrite: Rewrite, store: Store)
      ensures this.rewrite == rewrite && this.store == store && faults == 0
    {
      this.rewrite, this.store, faults := rewrite, store, 0;
    }

    /** One call of the API server. */
    method Call() returns (refused: bool)
      modifies this`faults
      ensures faults == if refused then old(faults) + 1 else old(faults)
    {
      refused := *;
      if refused {
        faults := faults + 1;
      }
    }

    /** Fails only for a refused call. */
    method ReconcileDeployment(eg: Egress) returns (err: bool)
      modifies this
      ensures DeployStep(old(store), store, eg, rewrite, err)
      ensures old(faults) <= faults && (err <==> faults != old(faults))
    {
      err := Call();
      if err {
        return;
      }
      var depl := new Deployment(store.depl);
      depl.Mutate(eg, rewrite);
      if store.depl == Some(depl.Value()) {
        return false;
      }
      err := Call();
      if !err {
        store := store.(depl := Some(depl.Value()));
      }
    }

    /** Fails only for a refused call. */
    method ReconcileService(eg: Egress) returns (err: bool)
      modifies this
      ensures ExposeStep(old(store), store, eg, err)
      ensures old(faults) <= faults && (err <==> faults != old(faults))
    {
      err := Call();
      if err {
        return;
      }
      var svc := new Service(if store.svc.Some? then store.svc.value else NEW_SVC);
      svc.Mutate(eg);
      if store.svc == Some(svc.Value()) {
        return false;
      }
      err := Call();
      if !err {
        store := store.(svc := Some(svc.Value()));
      }
    }

    /** Fails for a refused call or a missing deployment. */
    method UpdateStatus() returns (err: bool)
      modifies this
      ensures PublishStep(old(store), store, err)
      ensures old(faults) <= faults && (err <==> faults != old(faults) || old(store).depl.None?)
    {
      err := Call();
      if err || store.depl.None? {
        return true;
      }
      if store.status == store.depl.value.selector {
        return false;
      }
      err := Call();
      if !err {
        store := store.(status := store.depl.value.selector);
      }
    }

    /** One round: deployment, service, status, up to the first refused call. It continues any run. */
    method Reconcile(eg: Egress, ghost t: Trace) returns (err: bool, ghost t': Trace)
      requires t.store == store
      modifies this
      ensures t'.store == store && First(t') == First(t)
      ensures IsRun(t, eg.name, rewrite) ==> IsRun(t', eg.name, rewrite)
      ensures !err ==> Round(t, t', eg)
      ensures old(faults) <= faults && (err <==> faults != old(faults))
    {
      err := ReconcileDeployment(eg);
      t' := Then(t, Deploy(eg, err), store);
      if err {
        return;
      }
      err := ReconcileService(eg);
      t' := Then(t', Expose(eg, err), store);
      assert First(t') == First(t'.before);
      if err {
        return;
      }
      err := UpdateStatus();
      t' := Then(t', Publish(err), store);
    }
  }

  // ---- what holds over all runs --------------------------------------------------------------------

  /** The selector of the deployment in every run that starts before the deployment exists. */
  lemma {:induction false} SelectorNeverChanges(t: Trace, name: string, rewrite: Rewrite)
    requires IsRun(t, name, rewrite) && First(t).depl.None?
    ensures t.store.depl.Some? ==> t.store.depl.value.selector == SelectorLabels(name)
  {
    if t.Then? {
      SelectorNeverChanges(t.before, name, rewrite);
    }
  }

  /** The object is there and is not terminating. */
  predicate DeplLive(s: Store) {
    s.depl.Some? && !s.depl.value.terminating
  }

  predicate SvcLive(s: Store) {
    s.svc.Some? && !s.svc.value.terminating
  }

  /** The deployment's selector matches the pods of its own template after every successful action on a
      deployment that is not terminating, whatever labels the Egress sets and whatever others edited before. */
  lemma {:induction false} PodsMatchSelector(t: Trace, name: string, rewrite: Rewrite)
    requires IsRun(t, name, rewrite) && First(t).depl.None?
    requires t.Then? && t.action.Deploy? && !t.action.err && DeplLive(t.store)
    ensures Matches(t.store.depl.value.selector, t.store.depl.value.template.labels)
  {
    SelectorNeverChanges(t, name, rewrite);
  }

  /** Whatever others did before, a published status is the selector of the deployment and that of the Egress name. */
  lemma {:induction false} StatusTells(t: Trace, name: string, rewrite: Rewrite)
    requires IsRun(t, name, rewrite) && First(t).depl.None?
    requires t.Then? && t.action == Publish(false)
    ensures t.store.depl.Some? && t.store.status == t.store.depl.value.selector == SelectorLabels(name)
  {
    SelectorNeverChanges(t, name, rewrite);
  }

  /** The same for the service. */
  lemma {:induction false} ServiceFollows(t: Trace, name: string, rewrite: Rewrite)
    requires IsRun(t, name, rewrite) && First(t).depl.None?
    requires t.Then? && t.action.Expose? && !t.action.err && SvcLive(t.store)
    ensures t.store.svc.value.selector == SelectorLabels(name)
    ensures t.store.depl.Some? ==> t.store.svc.value.selector == t.store.depl.value.selector
  {
    SelectorNeverChanges(t, name, rewrite);
  }

  /** From `t` to `t'` only others acted, any number of times. */
  ghost predicate Meanwhile(t: Trace, t': Trace) {
    t' == t || (t'.Then? && t'.action.Others? && Meanwhile(t, t'.before))
  }

  lemma {:induction false} RunBefore(t: Trace, t': Trace, name: string, rewrite: Rewrite)
    requires Meanwhile(t, t') && IsRun(t', name, rewrite)
    ensures IsRun(t, name, rewrite) && First(t) == First(t')
  {
    if t' != t {
      RunBefore(t, t'.before, name, rewrite);
    }
  }

  /** A round with actions of others between its three calls: `d`, `s` and `p` are the runs up to each call. */
  ghost predicate InterleavedRound(d: Trace, s: Trace, p: Trace, eg: Egress) {
    && d.Then? && d.action == Deploy(eg, false)
    && s.Then? && s.action == Expose(eg, false) && Meanwhile(d, s.before)
    && p.Then? && p.action == Publish(false) && Meanwhile(s, p.before)
  }

  /** Each call of such a round leaves the one selector in its object, and at the end status and deployment agree. */
  lemma {:induction false} OneSelectorInterleaved(d: Trace, s: Trace, p: Trace, eg: Egress, rewrite: Rewrite)
    requires IsRun(p, eg.name, rewrite) && First(p).depl.None? && InterleavedRound(d, s, p, eg)
    ensures DeplLive(d.store) ==> Matches(SelectorLabels(eg.name), d.store.depl.value.template.labels)
    ensures SvcLive(s.store) ==> s.store.svc.value.selector == SelectorLabels(eg.name)
    ensures p.store.depl.Some? && p.store.status == p.store.depl.value.selector == SelectorLabels(eg.name)
  {
    StatusTells(p, eg.name, rewrite);
    RunBefore(s, p.before, eg.name, rewrite);
    if SvcLive(s.store) {
      ServiceFollows(s, eg.name, rewrite);
    }
    RunBefore(d, s.before, eg.name, rewrite);
    if DeplLive(d.store) {
      PodsMatchSelector(d, eg.name, rewrite);
      SelectorNeverChanges(d, eg.name, rewrite);
    }
  }

  /** What a complete round did to the objects. */
  lemma {:induction false} RoundSteps(t: Trace, t': Trace, eg: Egress, rewrite: Rewrite)
    requires IsRun(t', eg.name, rewrite) && Round(t, t', eg)
    ensures IsRun(t, eg.name, rewrite)
    ensures DeployStep(t.store, t.store.(depl := t'.store.depl), eg, rewrite, false)
    ensures ExposeStep(t.store, t.store.(svc := t'.store.svc), eg, false)
    ensures t'.store.status == t'.store.depl.value.selector
  {
    assert IsRun(t'.before, eg.name, rewrite);
    assert IsRun(t'.before.before, eg.name, rewrite);
  }

  /** After a complete round the deployment, the service and the status of the Egress have one selector, and
      it selects the deployment's pods. */
  lemma {:induction false} OneSelector(t: Trace, t': Trace, eg: Egress, rewrite: Rewrite)
    requires IsRun(t', eg.name, rewrite) && First(t').depl.None? && Round(t, t', eg)
    ensures t'.store.depl.Some? && t'.store.svc.Some?
    ensures t'.store.status == t'.store.depl.value.selector == SelectorLabels(eg.name)
    ensures SvcLive(t'.store) ==> t'.store.svc.value.selector == t'.store.depl.value.selector
    ensures DeplLive(t'.store) ==> Matches(t'.store.depl.value.selector, t'.store.depl.value.template.labels)
  {
    RoundSteps(t, t', eg, rewrite);
    SelectorNeverChanges(t', eg.name, rewrite);
  }

  /** Two Egresses: after complete rounds, neither's service nor deployment selects the other's pods, and each selects
      its own. */
  lemma {:induction false} NoCrossSelection(
    t: Trace, t': Trace, eg: Egress, rewrite: Rewrite, u: Trace, u': Trace, eg': Egress, rewrite': Rewrite)
    requires IsRun(t', eg.name, rewrite) && First(t').depl.None? && Round(t, t', eg)
    requires IsRun(u', eg'.name, rewrite') && First(u').depl.None? && Round(u, u', eg')
    requires DeplLive(t'.store) && SvcLive(t'.store) && DeplLive(u'.store)
    ensures Matches(t'.store.svc.value.selector, u'.store.depl.value.template.labels) <==> eg.name == eg'.name
    ensures Matches(t'.store.depl.value.selector, u'.store.depl.value.template.labels) <==> eg.name == eg'.name
  {
    OneSelector(t, t', eg, rewrite);
    RoundSteps(u, u', eg', rewrite');
    SelectsOwnPodsOnly(eg.name, UserLabels(eg'), eg'.name);
  }

  /** After a complete round what the last edition asks for is deployed. */
  lemma {:induction false} EditionIsDeployed(t: Trace, t': Trace, eg: Egress, rewrite: Rewrite)
    requires IsRun(t', eg.name, rewrite) && Round(t, t', eg) && DeplLive(t'.store) && eg.template.Some?
    ensures t'.store.depl.value.replicas == Some(eg.replicas)
    ensures Desired(eg.template.value, t'.store.depl.value.template)
  {
    RoundSteps(t, t', eg, rewrite);
    var before := if t.store.depl.Some? then t.store.depl.value else NEW_DEPL;
    DesiredIsDeployed(before.template, t'.store.depl.value.template, eg, rewrite);
  }

  /** Two lives of the same Egress, with any past edits, failures, terminations and re-creations, that end with
      a round for the same edition agree on everything the controller decides. */
  lemma {:induction false} PastForgotten(t: Trace, t': Trace, u: Trace, u': Trace, eg: Egress, rewrite: Rewrite)
    requires IsRun(t', eg.name, rewrite) && First(t').depl.None? && Round(t, t', eg)
    requires IsRun(u', eg.name, rewrite) && First(u').depl.None? && Round(u, u', eg)
    requires DeplLive(t'.store) && DeplLive(u'.store) && SvcLive(t'.store) && SvcLive(u'.store)
    ensures var d, e := t'.store.depl.value, u'.store.depl.value;
            && d.selector == e.selector && d.replicas == e.replicas
            && d.template.labels == e.template.labels && d.template.spec == e.template.spec
    ensures t'.store.svc.value.selector == u'.store.svc.value.selector && t'.store.status == u'.store.status
  {
    OneSelector(t, t', eg, rewrite);
    OneSelector(u, u', eg, rewrite);
    RoundSteps(t, t', eg, rewrite);
    RoundSteps(u, u', eg, rewrite);
    GatewayCompletedUnique(UserSpec(eg).containers, t'.store.depl.value.template.spec.containers,
                           u'.store.depl.value.template.spec.containers, rewrite);
  }

  lemma {:induction false} TemplateIdempotent(t0: Template, t1: Template, t2: Template, eg: Egress, rewrite: Rewrite)
    requires Reconciled(t0, t1, eg, rewrite) && Reconciled(t1, t2, eg, rewrite)
    ensures t2 == t1
  {
    GatewayCompletedUnique(UserSpec(eg).containers, t1.spec.containers, t2.spec.containers, rewrite);
    assert t1.annotations + UserAnnotations(eg) == t1.annotations;
  }

  lemma {:induction false} DeplIdempotent(d0: Depl, d1: Depl, d2: Depl, created: bool, eg: Egress, rewrite: Rewrite)
    requires DeplMutated(d0, d1, created, eg, rewrite) && DeplMutated(d1, d2, true, eg, rewrite)
    ensures d2 == d1
  {
    if !d0.terminating {
      TemplateIdempotent(d0.template, d1.template, d2.template, eg, rewrite);
      assert d1.labels + SelectorLabels(eg.name) == d1.labels;
    }
  }

  lemma {:induction false} SvcIdempotent(s0: Svc, s1: Svc, s2: Svc, eg: Egress)
    requires SvcMutated(s0, s1, eg) && SvcMutated(s1, s2, eg)
    ensures s2 == s1
  {
    assert !s0.terminating ==> s1.labels + SelectorLabels(eg.name) == s1.labels;
  }

  /** A second round with the same edition changes nothing. */
  lemma {:induction false} SecondRoundIsQuiet(t: Trace, t': Trace, t'': Trace, eg: Egress, rewrite: Rewrite)
    requires IsRun(t'', eg.name, rewrite) && Round(t, t', eg) && Round(t', t'', eg)
    ensures t''.store == t'.store
  {
    RoundSteps(t', t'', eg, rewrite);
    RoundSteps(t, t', eg, rewrite);
    var d, s := t.store.depl, t.store.svc;
    DeplIdempotent(if d.Some? then d.value else NEW_DEPL, t'.store.depl.value, t''.store.depl.value, d.Some?, eg, rewrite);
    SvcIdempotent(if s.Some? then s.value else NEW_SVC, t'.store.svc.value, t''.store.svc.value, eg);
  }

  predicate Annotated(s: Store, k: string, v: string) {
    s.depl.Some? && k in s.depl.value.template.annotations && s.depl.value.template.annotations[k] == v
  }

  /** No edition of the Egress sets the annotation, and others neither change it nor remove the deployment. */
  ghost predicate Untouched(t: Trace, k: string, v: string) {
    t.Then? ==>
      && Untouched(t.before, k, v)
      && (t.action.Deploy? ==> k !in UserAnnotations(t.action.eg))
      && (t.action.Others? && Annotated(t.before.store, k, v) ==> Annotated(t.store, k, v))
  }

  /** An annotation set from outside survives every run in which nobody else touches it. */
  lemma {:induction false} AnnotationSurvives(t: Trace, name: string, rewrite: Rewrite, k: string, v: string)
    requires IsRun(t, name, rewrite) && Untouched(t, k, v) && Annotated(First(t), k, v)
    ensures Annotated(t.store, k, v)
  {
    if t.Then? {
      AnnotationSurvives(t.before, name, rewrite, k, v);
    }
  }
}
