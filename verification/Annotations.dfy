/** Pod annotations that name egresses: how the watcher of one egress and the agent on the node read them. */
module Annotations {

  const EGRESS_PREFIX := "egress.ysksuzuki.com/"

  datatype Pod = Pod(hostNetwork: bool, annotations: map<string, string>)

  datatype ObjectKey = ObjectKey(namespace: string, name: string)

  /** strings.Split(s, ",") */
  function Split(s: string): (r: seq<string>)
    ensures |r| >= 1
  {
    if s == "" then [""]
    else
      var rest := Split(s[1..]);
      if s[0] == ',' then [""] + rest else [[s[0]] + rest[0]] + rest[1..]
  }

  function Join(parts: seq<string>): string
    requires |parts| >= 1
  {
    if |parts| == 1 then parts[0] else parts[0] + "," + Join(parts[1..])
  }

  /** Splitting loses nothing and leaves no comma in a part. */
  lemma {:induction false} SplitJoin(s: string)
    ensures Join(Split(s)) == s
    ensures forall p | p in Split(s) :: ',' !in p
  {
    if s != "" {
      var rest := Split(s[1..]);
      SplitJoin(s[1..]);
      assert s == [s[0]] + s[1..];
      if s[0] == ',' {
        assert Split(s)[1..] == rest;
      } else {
        assert rest == [rest[0]] + rest[1..];
        assert Split(s)[1..] == rest[1..];
        if |rest| > 1 {
          assert [s[0]] + rest[0] + "," + Join(rest[1..]) == [s[0]] + (rest[0] + "," + Join(rest[1..]));
        }
      }
    }
  }

  lemma {:induction false} SplitCommaFree(s: string)
    requires ',' !in s
    ensures Split(s) == [s]
  {
    if s != "" {
      assert s == [s[0]] + s[1..];
      SplitCommaFree(s[1..]);
    }
  }

  /** What the watcher of egress `ns/name` accepts: an annotation equal to the name counts too. */
  predicate Accepts(pod: Pod, ns: string, name: string) {
    && !pod.hostNetwork
    && EGRESS_PREFIX + ns in pod.annotations
    && (pod.annotations[EGRESS_PREFIX + ns] == name || name in Split(pod.annotations[EGRESS_PREFIX + ns]))
  }

  predicate HasPrefix(k: string) {
    EGRESS_PREFIX <= k
  }

  lemma {:induction false} KeyOfNamespace(k: string, ns: string)
    ensures HasPrefix(k) && k[|EGRESS_PREFIX|..] == ns <==> k == EGRESS_PREFIX + ns
  {
  }

  /** Decides whether the watcher of `myNS/myName` handles a pod; the annotations come in any order. */
  method ShouldHandle(pod: Pod, myNS: string, myName: string) returns (r: bool)
    ensures r <==> Accepts(pod, myNS, myName)
  {
    if pod.hostNetwork {
      return false;
    }
    var keys := pod.annotations.Keys;
    while keys != {}
      invariant keys <= pod.annotations.Keys
      invariant EGRESS_PREFIX + myNS in pod.annotations && EGRESS_PREFIX + myNS !in keys ==> !Accepts(pod, myNS, myName)
      decreases keys
    {
      var k :| k in keys;
      keys := keys - {k};
      KeyOfNamespace(k, myNS);
      if !HasPrefix(k) {
        continue;
      }
      if k[|EGRESS_PREFIX|..] != myNS {
        continue;
      }
      var v := pod.annotations[k];
      if v == myName {
        return true;
      }
      var parts := Split(v);
      for i := 0 to |parts|
        invariant myName !in parts[..i]
      {
        if parts[i] == myName {
          return true;
        }
        assert parts[..i + 1] == parts[..i] + [parts[i]];
      }
      assert parts[..|parts|] == parts;
    }
    r := false;
  }

  /** How often the agent's expansion names an egress. */
  function Mentions(pod: Pod, o: ObjectKey): nat {
    if !pod.hostNetwork && EGRESS_PREFIX + o.namespace in pod.annotations
    then multiset(Split(pod.annotations[EGRESS_PREFIX + o.namespace]))[o.name] else 0
  }

  /** The names one annotation value contributes. */
  method ExpandOne(ns: string, v: string) returns (names: seq<ObjectKey>)
    ensures forall o :: multiset(names)[o] == if o.namespace == ns then multiset(Split(v))[o.name] else 0
  {
    names := [];
    var parts := Split(v);
    for i := 0 to |parts|
      invariant forall o :: multiset(names)[o] == if o.namespace == ns then multiset(parts[..i])[o.name] else 0
    {
      names := names + [ObjectKey(ns, parts[i])];
      assert parts[..i + 1] == parts[..i] + [parts[i]];
    }
    assert parts[..|parts|] == parts;
  }

  /** Whatever order the annotation map is iterated in, the expansion is the same collection. */
  method Expand(pod: Pod) returns (egNames: seq<ObjectKey>)
    ensures forall o :: multiset(egNames)[o] == Mentions(pod, o)
  {
    egNames := [];
    if pod.hostNetwork {
      return;
    }
    var keys := pod.annotations.Keys;
    while keys != {}
      invariant keys <= pod.annotations.Keys
      invariant forall o :: multiset(egNames)[o] == if EGRESS_PREFIX + o.namespace in keys then 0 else Mentions(pod, o)
      decreases keys
    {
      var k :| k in keys;
      var names: seq<ObjectKey> := [];
      if HasPrefix(k) {
        names := ExpandOne(k[|EGRESS_PREFIX|..], pod.annotations[k]);
      }
      forall o: ObjectKey
        ensures multiset(names)[o] == if EGRESS_PREFIX + o.namespace == k then Mentions(pod, o) else 0
      {
        KeyOfNamespace(k, o.namespace);
      }
      ghost var before := egNames;
      egNames := egNames + names;
      keys := keys - {k};
      assert forall o :: multiset(egNames)[o] == multiset(before)[o] + multiset(names)[o];
    }
  }

  /** The agent expands a pod's annotations to an egress exactly when that egress's watcher accepts the
      pod, for every pod, if and only if the name has no comma. */
  lemma {:induction false} ExpansionAgreesIff(ns: string, name: string)
    ensures (forall pod: Pod :: Mentions(pod, ObjectKey(ns, name)) > 0 <==> Accepts(pod, ns, name)) <==> ',' !in name
  {
    if ',' !in name {
      forall pod: Pod
        ensures Mentions(pod, ObjectKey(ns, name)) > 0 <==> Accepts(pod, ns, name)
      {
        SplitCommaFree(name);
        if EGRESS_PREFIX + ns in pod.annotations {
          var parts := Split(pod.annotations[EGRESS_PREFIX + ns]);
          assert name in multiset(parts) <==> name in parts;
        }
      }
    } else {
      var pod := Pod(false, map[EGRESS_PREFIX + ns := name]);
      SplitJoin(name);
      assert name !in multiset(Split(name));
      assert Accepts(pod, ns, name) && Mentions(pod, ObjectKey(ns, name)) == 0;
    }
  }

  lemma {:induction false} SplitConcat(p: string, s: string)
    requires ',' !in p
    ensures Split(p + "," + s) == [p] + Split(s)
  {
    var t := p + "," + s;
    if p == "" {
      assert t == "," + s && t[1..] == s;
    } else {
      assert t[0] == p[0] && t[1..] == p[1..] + "," + s;
      assert p == [p[0]] + p[1..];
      SplitConcat(p[1..], s);
    }
  }

  /** Joining names without commas is inverted by splitting. */
  lemma {:induction false} JoinSplit(parts: seq<string>)
    requires |parts| >= 1 && forall p | p in parts :: ',' !in p
    ensures Split(Join(parts)) == parts
  {
    if |parts| == 1 {
      SplitCommaFree(parts[0]);
    } else {
      SplitConcat(parts[0], Join(parts[1..]));
      JoinSplit(parts[1..]);
    }
  }

  /** An annotation that lists egresses of a namespace means those egresses, each as often as listed, to agent and
      watcher alike. */
  lemma {:induction false} ListedEgresses(pod: Pod, ns: string, parts: seq<string>, name: string)
    requires !pod.hostNetwork && "egress.ysksuzuki.com/" + ns in pod.annotations
    requires |parts| >= 1 && (forall p | p in parts :: ',' !in p) && ',' !in name
    requires pod.annotations["egress.ysksuzuki.com/" + ns] == Join(parts)
    ensures Accepts(pod, ns, name) <==> name in parts
    ensures Mentions(pod, ObjectKey(ns, name)) == multiset(parts)[name]
  {
    JoinSplit(parts);
    if Join(parts) == name {
      SplitCommaFree(name);
    }
  }

  /** Pods on the host network and pods without the annotation of a namespace ask for none of its egresses. */
  lemma {:induction false} NothingAsked(pod: Pod, ns: string, name: string)
    requires pod.hostNetwork || "egress.ysksuzuki.com/" + ns !in pod.annotations
    ensures !Accepts(pod, ns, name) && Mentions(pod, ObjectKey(ns, name)) == 0
  {
  }
}
