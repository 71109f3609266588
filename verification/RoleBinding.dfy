/** The cluster role binding that lets egress gateways watch pods: one subject per namespace with an Egress. */
module RoleBinding {

  const SA_NAME := "egress-gw"

  datatype Subject = Subject(apiGroup: string, kind: string, name: string, namespace: string)

  function SubjectFor(ns: string): Subject {
    Subject("", "ServiceAccount", SA_NAME, ns)
  }

  // ---- string order ------------------------------------------------------------------------------

  predicate Less(a: string, b: string) {
    if b == "" then false
    else if a == "" then true
    else if a[0] != b[0] then a[0] < b[0]
    else Less(a[1..], b[1..])
  }

  lemma {:induction false} LessIrreflexive(a: string)
    ensures !Less(a, a)
  {
    if a != "" {
      LessIrreflexive(a[1..]);
    }
  }

  lemma {:induction false} LessTotal(a: string, b: string)
    ensures Less(a, b) || a == b || Less(b, a)
    ensures !(Less(a, b) && Less(b, a))
  {
    if a != "" && b != "" && a[0] == b[0] {
      LessTotal(a[1..], b[1..]);
      assert a == [a[0]] + a[1..] && b == [b[0]] + b[1..];
    }
  }

  lemma {:induction false} LessTransitive(a: string, b: string, c: string)
    requires Less(a, b) && Less(b, c)
    ensures Less(a, c)
  {
    if a != "" && a[0] == b[0] == c[0] {
      LessTransitive(a[1..], b[1..], c[1..]);
    }
  }

  /** The first difference is at `k`, or `a` is a proper prefix. */
  predicate FirstSmaller(a: string, b: string, k: nat) {
    k < |a| && k < |b| && a[..k] == b[..k] && a[k] < b[k]
  }

  lemma {:induction false} FirstSmallerTail(a: string, b: string, k: nat)
    requires a != "" && b != ""
    ensures FirstSmaller(a, b, 0) <==> a[0] < b[0]
    ensures k > 0 ==> (FirstSmaller(a, b, k) <==> a[0] == b[0] && FirstSmaller(a[1..], b[1..], k - 1))
  {
    if 0 < k < |a| && k < |b| {
      assert a[..k] == [a[0]] + a[1..][..k - 1] && b[..k] == [b[0]] + b[1..][..k - 1];
      assert a[..k] == b[..k] ==> a[..k][0] == b[..k][0] && a[..k][1..] == b[..k][1..];
      assert a[..k][1..] == a[1..][..k - 1] && b[..k][1..] == b[1..][..k - 1];
    }
  }

  /** The order of Go's strings: the first difference decides, and a proper prefix comes first. */
  lemma {:induction false} LessIff(a: string, b: string)
    ensures Less(a, b) <==> a < b || exists k: nat :: FirstSmaller(a, b, k)
  {
    if a != "" && b != "" {
      LessIff(a[1..], b[1..]);
      assert a == [a[0]] + a[1..] && b == [b[0]] + b[1..];
      assert a < b <==> a[0] == b[0] && a[1..] < b[1..];
      FirstSmallerTail(a, b, 0);
      if k: nat :| FirstSmaller(a[1..], b[1..], k) {
        FirstSmallerTail(a, b, k + 1);
      }
      forall k: nat | FirstSmaller(a, b, k)
        ensures if k == 0 then a[0] < b[0] else a[0] == b[0] && FirstSmaller(a[1..], b[1..], k - 1)
      {
        FirstSmallerTail(a, b, k);
      }
    }
  }

  /** Every element is below all later ones. */
  ghost predicate Ascending(s: seq<string>) {
    s != [] ==> (forall x | x in s[1..] :: Less(s[0], x)) && Ascending(s[1..])
  }

  function Elements(s: seq<string>): set<string> {
    set x | x in s
  }

  lemma {:induction false} ElementsEmpty(s: seq<string>)
    ensures Elements(s) == {} <==> s == []
  {
    if s != [] {
      assert s[0] in Elements(s);
    }
  }

  /** A set has only one ascending listing. */
  lemma {:induction false} AscendingUnique(s: seq<string>, t: seq<string>)
    requires Ascending(s) && Ascending(t) && Elements(s) == Elements(t)
    ensures s == t
  {
    ElementsEmpty(s);
    ElementsEmpty(t);
    if s != [] {
      assert s == [s[0]] + s[1..] && t == [t[0]] + t[1..];
      assert s[0] in Elements(t) && t[0] in Elements(s);
      LessTotal(s[0], t[0]);
      assert s[0] == t[0];
      LessIrreflexive(s[0]);
      forall x
        ensures x in Elements(s[1..]) <==> x in Elements(t[1..])
      {
        assert x in Elements(s) <==> x == s[0] || x in s[1..];
        assert x in Elements(t) <==> x == t[0] || x in t[1..];
      }
      AscendingUnique(s[1..], t[1..]);
    }
  }

  function InsertInto(s: seq<string>, x: string): seq<string> {
    if s == [] || Less(x, s[0]) then [x] + s else [s[0]] + InsertInto(s[1..], x)
  }

  lemma {:induction false} InsertElements(s: seq<string>, x: string)
    ensures forall y :: y in InsertInto(s, x) <==> y == x || y in s
  {
    if s != [] && !Less(x, s[0]) {
      InsertElements(s[1..], x);
      assert s == [s[0]] + s[1..];
    }
  }

  lemma {:induction false} LessThanAll(x: string, s: seq<string>)
    requires Ascending(s) && s != [] && Less(x, s[0])
    ensures forall y | y in s :: Less(x, y)
  {
    assert s == [s[0]] + s[1..];
    forall y | y in s[1..]
      ensures Less(x, y)
    {
      LessTransitive(x, s[0], y);
    }
  }

  lemma {:induction false} InsertKeepsAscending(s: seq<string>, x: string)
    requires Ascending(s) && x !in s
    ensures Ascending(InsertInto(s, x))
  {
    if s == [] {
      assert [x][1..] == [];
    } else if Less(x, s[0]) {
      assert ([x] + s)[1..] == s;
      LessThanAll(x, s);
    } else {
      LessTotal(x, s[0]);
      InsertKeepsAscending(s[1..], x);
      InsertElements(s[1..], x);
      var rest := InsertInto(s[1..], x);
      assert ([s[0]] + rest)[1..] == rest;
    }
  }

  /** sort.Strings on a list without repetitions. */
  method SortStrings(xs: seq<string>) returns (ys: seq<string>)
    requires forall i, j | 0 <= i < j < |xs| :: xs[i] != xs[j]
    ensures Ascending(ys) && Elements(ys) == Elements(xs)
  {
    ys := [];
    for i := 0 to |xs|
      invariant Ascending(ys) && Elements(ys) == Elements(xs[..i])
    {
      assert xs[..i + 1] == xs[..i] + [xs[i]];
      assert xs[i] !in xs[..i];
      assert xs[i] !in Elements(ys);
      InsertKeepsAscending(ys, xs[i]);
      InsertElements(ys, xs[i]);
      assert Elements(InsertInto(ys, xs[i])) == Elements(ys) + {xs[i]};
      assert Elements(xs[..i + 1]) == Elements(xs[..i]) + {xs[i]};
      ys := InsertInto(ys, xs[i]);
    }
    assert xs[..|xs|] == xs;
  }

  // ---- the binding -------------------------------------------------------------------------------

  /** equality.Semantic.DeepDerivative on strings: an empty field asks for nothing. */
  predicate FieldDerives(want: string, have: string) {
    want == "" || want == have
  }

  predicate SubjectDerives(want: Subject, have: Subject) {
    && FieldDerives(want.apiGroup, have.apiGroup) && FieldDerives(want.kind, have.kind)
    && FieldDerives(want.name, have.name) && FieldDerives(want.namespace, have.namespace)
  }

  /** The same on lists: the wanted list may be a leading part of the present one. */
  predicate Derives(want: seq<Subject>, have: seq<Subject>) {
    |want| <= |have| && forall i | 0 <= i < |want| :: SubjectDerives(want[i], have[i])
  }

  /** The subjects wanted for a set of namespaces: in ascending order, each once. */
  ghost predicate Wanted(subjects: seq<Subject>, namespaces: set<string>) {
    exists s: seq<string> :: Ascending(s) && Elements(s) == namespaces && subjects == Subjects(s)
  }

  function Subjects(s: seq<string>): (r: seq<Subject>)
    ensures |r| == |s| && forall i | 0 <= i < |s| :: r[i] == SubjectFor(s[i])
  {
    seq(|s|, i requires 0 <= i < |s| => SubjectFor(s[i]))
  }

  /** The wanted list is a function of the namespace set alone. */
  lemma {:induction false} WantedUnique(a: seq<Subject>, b: seq<Subject>, namespaces: set<string>)
    requires Wanted(a, namespaces) && Wanted(b, namespaces)
    ensures a == b
  {
    var s: seq<string> :| Ascending(s) && Elements(s) == namespaces && a == Subjects(s);
    var t: seq<string> :| Ascending(t) && Elements(t) == namespaces && b == Subjects(t);
    AscendingUnique(s, t);
  }

  function NamespacesOf(egresses: seq<string>): set<string> {
    set ns | ns in egresses
  }

  /** Reconciles the subjects of the binding with the namespaces of the listed egresses. */
  method ReconcileCRB(present: seq<Subject>, egresses: seq<string>) returns (after: seq<Subject>, wrote: bool)
    ensures exists want :: Wanted(want, NamespacesOf(egresses))
    ensures forall want | Wanted(want, NamespacesOf(egresses)) ::
              after == (if wrote then want else present) && (wrote <==> !Derives(want, present))
    ensures !wrote ==> after == present
    ensures wrote ==> forall i | 0 <= i < |after| ::
              after[i] == Subject("", "ServiceAccount", "egress-gw", after[i].namespace) && after[i].namespace in egresses
    ensures wrote ==> forall ns | ns in egresses :: exists i | 0 <= i < |after| :: after[i].namespace == ns
  {
    var nsMap: set<string> := {};
    for i := 0 to |egresses|
      invariant nsMap == NamespacesOf(egresses[..i])
    {
      assert egresses[..i + 1] == egresses[..i] + [egresses[i]];
      nsMap := nsMap + {egresses[i]};
    }
    assert egresses[..|egresses|] == egresses;
    var namespaces: seq<string> := [];
    var left := nsMap;
    while left != {}
      invariant left <= nsMap && Elements(namespaces) == nsMap - left
      invariant forall i, j | 0 <= i < j < |namespaces| :: namespaces[i] != namespaces[j]
      decreases left
    {
      var ns :| ns in left;
      assert ns !in Elements(namespaces);
      assert Elements(namespaces + [ns]) == Elements(namespaces) + {ns};
      namespaces := namespaces + [ns];
      left := left - {ns};
    }
    namespaces := SortStrings(namespaces);
    var subjects := Subjects(namespaces);
    assert Wanted(subjects, NamespacesOf(egresses));
    forall want | Wanted(want, NamespacesOf(egresses))
      ensures want == subjects
    {
      WantedUnique(want, subjects, NamespacesOf(egresses));
    }
    if Derives(subjects, present) {
      return present, false;
    }
    after, wrote := subjects, true;
    assert forall ns | ns in egresses :: ns in Elements(namespaces);
    assert forall i | 0 <= i < |after| :: after[i].namespace in Elements(namespaces);
  }

  /** `s` lets the gateways of a namespace in. */
  predicate Binds(s: Subject, ns: string) {
    s.kind == "ServiceAccount" && s.name == SA_NAME && s.namespace == ns
  }

  ghost predicate Bound(subjects: seq<Subject>, ns: string) {
    exists i | 0 <= i < |subjects| :: Binds(subjects[i], ns)
  }

  /** Whatever was present, afterwards every namespace with an Egress is bound. */
  lemma {:induction false} EveryNamespaceBound(
    want: seq<Subject>, present: seq<Subject>, namespaces: set<string>, ns: string)
    requires Wanted(want, namespaces) && ns in namespaces && ns != ""
    ensures Bound(if Derives(want, present) then present else want, ns)
  {
    var s: seq<string> :| Ascending(s) && Elements(s) == namespaces && want == Subjects(s);
    var i :| 0 <= i < |s| && s[i] == ns;
    assert Binds(want[i], ns);
    if Derives(want, present) {
      assert SubjectDerives(want[i], present[i]);
      assert Binds(present[i], ns);
    }
  }

  /** A second run on the same namespaces writes nothing. */
  lemma {:induction false} SecondRunIsQuiet(
    want: seq<Subject>, present: seq<Subject>, again: seq<Subject>, namespaces: set<string>)
    requires Wanted(want, namespaces) && Wanted(again, namespaces)
    ensures Derives(again, if Derives(want, present) then present else want)
  {
    WantedUnique(want, again, namespaces);
  }

  /** The leading part that answers the wanted list binds wanted namespaces only. */
  lemma {:induction false} LeadingPartIsWanted(want: seq<Subject>, have: seq<Subject>, namespaces: set<string>, i: nat)
    requires Wanted(want, namespaces) && "" !in namespaces && Derives(want, have) && i < |want|
    ensures want[i].namespace in namespaces && have[i].namespace == want[i].namespace
  {
    var s: seq<string> :| Ascending(s) && Elements(s) == namespaces && want == Subjects(s);
    assert s[i] in Elements(s);
    assert SubjectDerives(want[i], have[i]);
  }

  /** A namespace whose last Egress is gone stays bound exactly when the wanted list is a leading part of
      the present one and the namespace is bound behind it. */
  lemma {:induction false} StaleBindingIff(want: seq<Subject>, present: seq<Subject>, namespaces: set<string>, ns: string)
    requires Wanted(want, namespaces) && ns !in namespaces && "" !in namespaces
    ensures Bound(if Derives(want, present) then present else want, ns)
       <==> Derives(want, present) && Bound(present[|want|..], ns)
  {
    var after := if Derives(want, present) then present else want;
    assert Derives(want, after);
    forall i | 0 <= i < |want|
      ensures !Binds(after[i], ns)
    {
      LeadingPartIsWanted(want, after, namespaces, i);
    }
    var tail := after[|want|..];
    assert forall i | 0 <= i < |tail| :: tail[i] == after[|want| + i];
    assert Bound(after, ns) ==> Bound(tail, ns) by {
      if Bound(after, ns) {
        var i :| 0 <= i < |after| && Binds(after[i], ns);
        assert tail[i - |want|] == after[i];
      }
    }
    assert Bound(tail, ns) ==> Bound(after, ns);
  }

  /** When the wanted list leads the present one: name, kind and namespace agree position by position, and the API
      group of the present subjects is not looked at. */
  lemma {:induction false} WantedLeadsIff(s: seq<string>, present: seq<Subject>)
    requires forall i | 0 <= i < |s| :: s[i] != ""
    ensures Derives(Subjects(s), present)
       <==> |s| <= |present| && forall i | 0 <= i < |s| ::
              present[i].kind == "ServiceAccount" && present[i].name == "egress-gw" && present[i].namespace == s[i]
  {
    var want := Subjects(s);
    forall i | 0 <= i < |s| && i < |present|
      ensures SubjectDerives(want[i], present[i])
         <==> present[i].kind == "ServiceAccount" && present[i].name == "egress-gw" && present[i].namespace == s[i]
    {
      assert want[i] == Subject("", "ServiceAccount", "egress-gw", s[i]);
    }
    if Derives(want, present) {
      assert forall i | 0 <= i < |s| :: SubjectDerives(want[i], present[i]);
    }
  }

  lemma {:induction false} OneNamespace(ns: string)
    ensures Wanted([SubjectFor(ns)], {ns})
  {
    assert [ns][1..] == [];
    assert Ascending([ns]);
    assert ns in [ns] && forall x | x in [ns] :: x == ns;
    assert Elements([ns]) == {ns};
    assert Subjects([ns]) == [SubjectFor(ns)];
  }

  /** The last Egress of namespace b is gone, that of a is not: the binding of b stays. */
  lemma {:induction false} StaleBindingStays(a: string, b: string)
    requires a != "" && b != "" && a != b
    ensures var present := [SubjectFor(a), SubjectFor(b)];
            && Wanted([SubjectFor(a)], {a}) && Derives([SubjectFor(a)], present) && Bound(present, b)
  {
    OneNamespace(a);
    assert Subjects([a]) == [SubjectFor(a)];
    WantedLeadsIff([a], [SubjectFor(a), SubjectFor(b)]);
    assert Binds([SubjectFor(a), SubjectFor(b)][1], b);
  }
}
