/** What the rules that Init leaves do with an address, for any number of private networks and any other
    rules in the namespace, and exactly when that is one flat longest-prefix match. */
module Flatness {
  import opened Cidr
  import opened Kernel
  import opened Routing
  import opened RuleBands

  /** The first private network that contains the address, or the number of networks. */
  function First(priv: seq<Bits>, a: Bits): (i: nat)
    ensures i <= |priv| && (i < |priv| ==> priv[i] <= a)
    ensures forall j | 0 <= j < i :: !(priv[j] <= a)
  {
    if priv == [] || priv[0] <= a then 0 else 1 + First(priv[1..], a)
  }

  lemma {:induction false} PrivateIffFirst(priv: seq<Bits>, a: Bits)
    ensures Private(priv, a) <==> First(priv, a) < |priv|
    ensures Private(Early(priv), a) <==> First(priv, a) < |Early(priv)|
  {
    var i := First(priv, a);
    assert i < |priv| ==> priv[i] in priv;
    assert i < |Early(priv)| ==> Early(priv)[i] == priv[i] && priv[i] in Early(priv);
  }

  // ---- rules above the band ----------------------------------------------------------------------

  /** The leading rules with priority values up to `prio`. */
  function UpTo(rules: seq<Rule>, prio: int): (s: seq<Rule>)
    ensures s <= rules && forall x | x in s :: x.prio <= prio
  {
    if rules == [] || rules[0].prio > prio then [] else [rules[0]] + UpTo(rules[1..], prio)
  }

  /** A rule goes right behind those. */
  lemma {:induction false} InsertSplits(rules: seq<Rule>, r: Rule)
    ensures var u := UpTo(rules, r.prio);
            Insert(rules, r) == u + [r] + rules[|u|..]
  {
    if rules != [] && rules[0].prio <= r.prio {
      InsertSplits(rules[1..], r);
    }
  }

  lemma {:induction false} WalkOne(r: Rule, fib: Fib, a: Bits)
    ensures Walk([r], fib, a) == Visit(r, fib, a)
  {
    assert [r][1..] == [];
  }

  /** A rule for another destination changes no walk. */
  lemma {:induction false} InsertUnmatched(rules: seq<Rule>, r: Rule, fib: Fib, a: Bits)
    requires !(r.dst <= a)
    ensures Walk(Insert(rules, r), fib, a) == Walk(rules, fib, a)
  {
    var u := UpTo(rules, r.prio);
    var rest := rules[|u|..];
    InsertSplits(rules, r);
    WalkOne(r, fib, a);
    WalkConcat(u + [r], rest, fib, a);
    WalkConcat(u, [r], fib, a);
    WalkConcat(u, rest, fib, a);
    assert u + rest == rules;
  }

  lemma {:induction false} UpToInsert(rules: seq<Rule>, r: Rule, prio: int)
    requires r.prio <= prio
    ensures UpTo(Insert(rules, r), prio) == Insert(UpTo(rules, prio), r)
  {
    if rules == [] || rules[0].prio > r.prio {
      assert ([r] + rules)[1..] == rules;
    } else {
      UpToInsert(rules[1..], r, prio);
      var s := Insert(rules[1..], r);
      assert ([rules[0]] + s)[1..] == s;
      var t := UpTo(rules[1..], prio);
      assert ([rules[0]] + t)[1..] == t;
    }
  }

  lemma {:induction false} InstallUnmatched(rules: seq<Rule>, late: seq<Rule>, prio: int, fib: Fib, a: Bits)
    requires forall r | r in late :: !(r.dst <= a) && r.prio <= prio
    ensures Walk(Install(rules, late), fib, a) == Walk(rules, fib, a)
    ensures Walk(UpTo(Install(rules, late), prio), fib, a) == Walk(UpTo(rules, prio), fib, a)
  {
    if late != [] {
      var k := |late| - 1;
      var r, some := late[k], Install(rules, late[..k]);
      assert r in late;
      InstallUnmatched(rules, late[..k], prio, fib, a);
      InsertUnmatched(some, r, fib, a);
      UpToInsert(some, r, prio);
      InsertUnmatched(UpTo(some, prio), r, fib, a);
    }
  }

  /** Behind a matching rule for the main table nothing counts. */
  lemma {:induction false} InstallDecided(rules: seq<Rule>, r: Rule, late: seq<Rule>, fib: Fib, a: Bits)
    requires r.dst <= a && r.table == MAIN_TABLE && forall x | x in late :: r.prio <= x.prio
    ensures Walk(Install(Insert(rules, r), late), fib, a) == OrElse(Walk(UpTo(rules, r.prio), fib, a), Main)
  {
    var u := UpTo(rules, r.prio);
    var rest := rules[|u|..];
    InsertSplits(rules, r);
    InstallBehind(u + [r], rest, late);
    WalkConcat(u + [r], Install(rest, late), fib, a);
    WalkConcat(u, [r], fib, a);
    WalkOne(r, fib, a);
  }

  lemma {:induction false} FirstMatchDecides(rules: seq<Rule>, x: seq<Rule>, r: Rule, y: seq<Rule>, fib: Fib, a: Bits)
    requires forall q | q in x :: !(q.dst <= a) && q.prio <= r.prio
    requires r.dst <= a && r.table == MAIN_TABLE && forall q | q in y :: r.prio <= q.prio
    ensures Walk(Install(rules, x + [r] + y), fib, a) == OrElse(Walk(UpTo(rules, r.prio), fib, a), Main)
  {
    InstallConcat(rules, x + [r], y);
    InstallConcat(rules, x, [r]);
    InstallOne(Install(rules, x), r);
    InstallUnmatched(rules, x, r.prio, fib, a);
    InstallDecided(Install(rules, x), r, y, fib, a);
  }

  /** The rules above the band after Init: the first late network that contains the address decides, unless
      another rule above the band with a priority value up to its own does. */
  lemma {:induction false} WalkAbove(rules: seq<Rule>, priv: seq<Bits>, fib: Fib, a: Bits)
    requires First(priv, a) >= |Early(priv)|
    ensures Walk(Install(rules, LateRules(priv)), fib, a)
         == if First(priv, a) < |priv| then OrElse(Walk(UpTo(rules, LOCAL_PRIO_BASE + First(priv, a)), fib, a), Main)
            else Walk(rules, fib, a)
  {
    var i, late := First(priv, a), LateRules(priv);
    var k := i - |Early(priv)|;
    if i < |priv| {
      assert late == late[..k] + [late[k]] + late[k + 1..];
      assert late[k] == Rule(LOCAL_PRIO_BASE + i, MAIN_TABLE, priv[i]);
      FirstMatchDecides(rules, late[..k], late[k], late[k + 1..], fib, a);
    } else {
      InstallUnmatched(rules, late, LOCAL_PRIO_BASE + i, fib, a);
    }
  }

  // ---- the installed rules -----------------------------------------------------------------------

  /** The stages from the narrow table on: `early` and `priv` say whether one of the first 101 private networks
      and whether any of them contains the address, `ahead` and `above` what other rules above the band decide
      before the first private network there and altogether. */
  function Stages(narrow: Hop, early: bool, wide: Hop, priv: bool, ahead: Hop, above: Hop): Hop {
    OrElse(narrow, if early then Main else OrElse(wide, if priv then OrElse(ahead, Main) else above))
  }

  /** What the other rules above the band decide before the first private network that contains the address. */
  function Ahead(priv: seq<Bits>, above: seq<Rule>, fib: Fib, a: Bits): Hop {
    Walk(UpTo(above, LOCAL_PRIO_BASE + First(priv, a)), fib, a)
  }

  /** What the rules from the band on do with an address outside the link-local range; `above` are the
      other rules above the band. */
  function Tiers(priv: seq<Bits>, above: seq<Rule>, fib: Fib, a: Bits): Hop {
    Stages(TableHop(fib.TableOf(NARROW_TABLE), a), First(priv, a) < |Early(priv)|,
           TableHop(fib.TableOf(WIDE_TABLE), a), First(priv, a) < |priv|,
           Ahead(priv, above, fib, a), Walk(above, fib, a))
  }

  lemma {:induction false} WalkFromBand(linkLocal: Bits, priv: seq<Bits>, above: seq<Rule>, fib: Fib, a: Bits)
    ensures OrElse(Walk(Band(linkLocal, Early(priv)), fib, a), Walk(Install(above, LateRules(priv)), fib, a))
         == if linkLocal <= a then Main else Tiers(priv, above, fib, a)
  {
    WalkBand(linkLocal, Early(priv), fib, a);
    PrivateIffFirst(priv, a);
    if First(priv, a) >= |Early(priv)| {
      WalkAbove(above, priv, fib, a);
    }
  }

  /** The meaning of the rules Init leaves, for any rules found and any number of private networks. */
  lemma {:induction false} InstalledWalk(rules: seq<Rule>, linkLocal: Bits, priv: seq<Bits>, fib: Fib, a: Bits)
    requires RulesOk(rules)
    ensures var kept := OutOfBand(rules);
            Walk(Install(kept, Band(linkLocal, priv)), fib, a)
            == OrElse(Walk(Below(kept), fib, a),
                      if linkLocal <= a then Main else Tiers(priv, Above(kept), fib, a))
  {
    var kept := OutOfBand(rules);
    var pre, band, post := Below(kept), Band(linkLocal, Early(priv)), Install(Above(kept), LateRules(priv));
    InstallShape(rules, linkLocal, priv);
    WalkConcat(pre + band, post, fib, a);
    WalkConcat(pre, band, fib, a);
    WalkFromBand(linkLocal, priv, Above(kept), fib, a);
  }

  /** Private traffic the walk takes out of the main table: only networks from number 102 on contain the
      address, the narrow table has no match, and the wide table or another rule ahead of the first of those
      networks leads to a device. */
  predicate Overtaken(priv: seq<Bits>, above: seq<Rule>, fib: Fib, a: Bits) {
    && MAX_PRIVATE <= First(priv, a) < |priv|
    && TableHop(fib.TableOf(NARROW_TABLE), a).NoMatch?
    && (TableHop(fib.TableOf(WIDE_TABLE), a).Via? || Ahead(priv, above, fib, a).Via?)
  }

  lemma {:induction false} StagesVsFlat(narrow: Hop, early: bool, wide: Hop, priv: bool, ahead: Hop, above: Hop)
    requires wide != Main && (early ==> priv)
    ensures Stages(narrow, early, wide, priv, ahead, above)
         == OrElse(OrElse(narrow, if priv then Main else wide), above)
       <==> !(priv && !early && narrow.NoMatch? && (wide.Via? || ahead.Via?))
  {
  }

  lemma {:induction false} FlatByTables(priv: seq<Bits>, fib: Fib, a: Bits)
    requires Classified(fib, priv, |a|)
    requires NarrowFirst(priv, fib.TableOf(NARROW_TABLE), fib.TableOf(WIDE_TABLE), a)
    ensures Flat(priv, Registered(fib), a)
         == OrElse(TableHop(fib.TableOf(NARROW_TABLE), a),
                   if First(priv, a) < |priv| then Main else TableHop(fib.TableOf(WIDE_TABLE), a))
  {
    FlatOfTiers(priv, fib.TableOf(NARROW_TABLE), fib.TableOf(WIDE_TABLE), a);
    PrivateIffFirst(priv, a);
  }

  lemma {:induction false} TiersVs(priv: seq<Bits>, above: seq<Rule>, fib: Fib, a: Bits, flat: Hop)
    requires flat == OrElse(TableHop(fib.TableOf(NARROW_TABLE), a),
                            if First(priv, a) < |priv| then Main else TableHop(fib.TableOf(WIDE_TABLE), a))
    ensures Tiers(priv, above, fib, a) == OrElse(flat, Walk(above, fib, a)) <==> !Overtaken(priv, above, fib, a)
  {
    StagesVsFlat(TableHop(fib.TableOf(NARROW_TABLE), a), First(priv, a) < |Early(priv)|,
                 TableHop(fib.TableOf(WIDE_TABLE), a), First(priv, a) < |priv|,
                 Ahead(priv, above, fib, a), Walk(above, fib, a));
  }

  lemma {:induction false} FlatIsTiers(priv: seq<Bits>, above: seq<Rule>, fib: Fib, a: Bits)
    requires Classified(fib, priv, |a|)
    requires NarrowFirst(priv, fib.TableOf(NARROW_TABLE), fib.TableOf(WIDE_TABLE), a)
    ensures Tiers(priv, above, fib, a) == OrElse(Flat(priv, Registered(fib), a), Walk(above, fib, a))
       <==> !Overtaken(priv, above, fib, a)
  {
    FlatByTables(priv, fib, a);
    TiersVs(priv, above, fib, a, Flat(priv, Registered(fib), a));
  }

  /** With safe subnets the installed rules are one flat longest-prefix match between the rules below and
      the rules above the band, at exactly the addresses that are not overtaken. */
  lemma {:induction false} TwoTierIsFlatIff(rules: seq<Rule>, linkLocal: Bits, priv: seq<Bits>, fib: Fib, a: Bits)
    requires RulesOk(rules) && Classified(fib, priv, |a|)
    requires forall n | n in Registered(fib) :: Safe(priv, n, |a|)
    requires !(linkLocal <= a)
    ensures var kept := OutOfBand(rules);
            (Walk(Install(kept, Band(linkLocal, priv)), fib, a)
             == OrElse(Walk(Below(kept), fib, a), OrElse(Flat(priv, Registered(fib), a), Walk(Above(kept), fib, a))))
            <==> !Walk(Below(kept), fib, a).NoMatch? || !Overtaken(priv, Above(kept), fib, a)
  {
    InstalledWalk(rules, linkLocal, priv, fib, a);
    SafeIsNarrowFirst(priv, fib, a);
    FlatIsTiers(priv, Above(OutOfBand(rules)), fib, a);
  }

  // ---- exactly when the scheme is flat for every registered set ----------------------------------

  /** Where the client puts a set of subnets, with no rules but its own. */
  ghost function Placed(subs: Table, linkLocal: Bits, priv: seq<Bits>, width: nat): (fib: Fib)
    requires forall n | n in subs :: |n| <= width
    ensures Classified(fib, priv, width) && Registered(fib) == subs
    ensures fib.rules == Install([], Band(linkLocal, priv))
  {
    var narrow := map n | n in subs && Narrow(priv, n, width) :: subs[n];
    var wide := map n | n in subs && !Narrow(priv, n, width) :: subs[n];
    assert narrow + wide == subs;
    Fib(Install([], Band(linkLocal, priv)), map[]).WithTable(NARROW_TABLE, narrow).WithTable(WIDE_TABLE, wide)
  }

  /** The kernel's walk over the client's rules, in the order the kernel keeps them. */
  ghost function PlacedWalk(linkLocal: Bits, priv: seq<Bits>, subs: Table, a: Bits): Hop
    requires forall n | n in subs :: |n| <= |a|
  {
    var fib := Placed(subs, linkLocal, priv, |a|);
    Walk(fib.rules, fib, a)
  }

  ghost predicate AgreesAt(linkLocal: Bits, priv: seq<Bits>, subs: Table, a: Bits)
    requires forall n | n in subs :: |n| <= |a|
  {
    PlacedWalk(linkLocal, priv, subs, a) == Flat(priv, subs, a)
  }

  ghost predicate AgreesFor(linkLocal: Bits, priv: seq<Bits>, subs: Table, width: nat)
    requires forall n | n in subs :: |n| <= width
  {
    forall a: Bits | |a| == width && !(linkLocal <= a) :: AgreesAt(linkLocal, priv, subs, a)
  }

  /** The two schemes agree for every registered set of permitted subnets. */
  ghost predicate AgreesWithin(linkLocal: Bits, priv: seq<Bits>, permitted: iset<Bits>, width: nat)
    requires forall n | n in permitted :: |n| <= width
  {
    forall subs: Table | (forall n | n in subs :: n in permitted) :: AgreesFor(linkLocal, priv, subs, width)
  }

  lemma {:induction false} PlacedTiers(linkLocal: Bits, priv: seq<Bits>, subs: Table, a: Bits)
    requires forall n | n in subs :: |n| <= |a|
    requires !(linkLocal <= a)
    ensures PlacedWalk(linkLocal, priv, subs, a) == Tiers(priv, [], Placed(subs, linkLocal, priv, |a|), a)
  {
    InstalledWalk([], linkLocal, priv, Placed(subs, linkLocal, priv, |a|), a);
  }

  lemma {:induction false} PlacedTables(linkLocal: Bits, priv: seq<Bits>, subs: Table, n: Bits, width: nat)
    requires n in subs && forall k | k in subs :: |k| <= width
    ensures var fib := Placed(subs, linkLocal, priv, width);
            && (n in fib.TableOf(NARROW_TABLE) <==> Narrow(priv, n, width))
            && (n in fib.TableOf(WIDE_TABLE) <==> !Narrow(priv, n, width))
            && (n in fib.TableOf(NARROW_TABLE) ==> fib.TableOf(NARROW_TABLE)[n] == subs[n])
            && (n in fib.TableOf(WIDE_TABLE) ==> fib.TableOf(WIDE_TABLE)[n] == subs[n])
  {
    assert n in Registered(Placed(subs, linkLocal, priv, width));
  }

  /** An address of `p` outside `linkLocal`. */
  ghost function Escape(p: Bits, linkLocal: Bits, width: nat): (a: Bits)
    requires |p| <= width && |linkLocal| <= width && !(linkLocal <= p)
    ensures |a| == width && p <= a && !(linkLocal <= a)
  {
    if p <= linkLocal then
      var q := p + [!linkLocal[|p|]];
      assert Base(q, width)[|p|] == q[|p|];
      Base(q, width)
    else
      var a := Base(p, width);
      if linkLocal <= a then Nested(p, linkLocal, a); a else a
  }

  /** A narrow subnet contains no private network and no wide subnet as a proper part, except inside the
      link-local range. */
  ghost predicate Clear(linkLocal: Bits, priv: seq<Bits>, permitted: iset<Bits>, width: nat, n: Bits)
    requires forall k | k in permitted :: |k| <= width
    requires n in permitted
  {
    Narrow(priv, n, width) ==>
      && (forall p | p in priv && n < p :: linkLocal <= p)
      && (forall q | q in permitted && n < q && !Narrow(priv, q, width) :: linkLocal <= q)
  }

  /** Only private networks from number 102 on contain the address. */
  predicate LateAt(priv: seq<Bits>, a: Bits) {
    MAX_PRIVATE <= First(priv, a) < |priv|
  }

  /** A wide subnet contains such an address outside the link-local range. */
  ghost predicate Overtakes(linkLocal: Bits, priv: seq<Bits>, n: Bits, width: nat)
    requires |n| <= width
  {
    !Narrow(priv, n, width) && exists a: Bits | |a| == width && n <= a && !(linkLocal <= a) :: LateAt(priv, a)
  }

  /** The longest narrow match takes an address. */
  lemma {:induction false} NarrowTakes(linkLocal: Bits, priv: seq<Bits>, subs: Table, n: Bits, a: Bits)
    requires forall k | k in subs :: |k| <= |a|
    requires n in subs && n <= a && Narrow(priv, n, |a|) && !(linkLocal <= a)
    requires forall k | k in subs && k <= a && Narrow(priv, k, |a|) :: |k| <= |n|
    ensures PlacedWalk(linkLocal, priv, subs, a) == Via(subs[n])
  {
    PlacedTiers(linkLocal, priv, subs, a);
    PlacedTables(linkLocal, priv, subs, n, |a|);
    var fib := Placed(subs, linkLocal, priv, |a|);
    assert forall k | k in fib.TableOf(NARROW_TABLE) :: k in Registered(fib);
    LookupIs(fib.TableOf(NARROW_TABLE), a, n);
  }

  /** One narrow subnet around a private network is enough to send its traffic into a tunnel. */
  lemma {:induction false} UnsafeDisagrees(linkLocal: Bits, priv: seq<Bits>, n: Bits, p: Bits, a: Bits, dev: string)
    requires n < p <= a && p in priv && Narrow(priv, n, |a|) && !(linkLocal <= a)
    ensures PlacedWalk(linkLocal, priv, map[n := dev], a) == Via(dev)
    ensures Flat(priv, map[n := dev], a) == Main
  {
    NarrowTakes(linkLocal, priv, map[n := dev], n, a);
    FlatIsMain(priv, map[n := dev], a, p);
  }

  /** A wide match in the flat table is beaten by private networks only. */
  lemma {:induction false} FlatWide(priv: seq<Bits>, subs: Table, q: Bits, a: Bits)
    requires q in subs && q <= a && !Narrow(priv, q, |a|)
    requires forall k | k in subs && k <= a :: |k| <= |q|
    ensures Flat(priv, subs, a) == if Private(priv, a) then Main else Via(subs[q])
  {
    if p :| p in priv && p <= a {
      WideIsShorter(priv, q, p, a);
      FlatIsMain(priv, subs, a, p);
    } else {
      FlatDecidedBy(priv, subs, a, q);
    }
  }

  /** One narrow subnet around a wide one takes the wide one's traffic. */
  lemma {:induction false} HiddenDisagrees(linkLocal: Bits, priv: seq<Bits>, subs: Table, n: Bits, q: Bits, a: Bits)
    requires n < q <= a && !(linkLocal <= a)
    requires Narrow(priv, n, |a|) && !Narrow(priv, q, |a|)
    requires subs.Keys == {n, q} && subs[n] != subs[q]
    ensures PlacedWalk(linkLocal, priv, subs, a) == Via(subs[n])
    ensures Flat(priv, subs, a) != Via(subs[n])
  {
    NarrowTakes(linkLocal, priv, subs, n, a);
    FlatWide(priv, subs, q, a);
  }

  /** One wide subnet alone takes the traffic of networks from number 102 on. */
  lemma {:induction false} OvertakenDisagrees(linkLocal: Bits, priv: seq<Bits>, n: Bits, a: Bits, dev: string)
    requires n <= a && !(linkLocal <= a) && !Narrow(priv, n, |a|) && LateAt(priv, a)
    ensures PlacedWalk(linkLocal, priv, map[n := dev], a) == Via(dev)
    ensures Flat(priv, map[n := dev], a) == Main
  {
    var subs: Table := map[n := dev];
    PlacedTiers(linkLocal, priv, subs, a);
    PlacedTables(linkLocal, priv, subs, n, |a|);
    var fib := Placed(subs, linkLocal, priv, |a|);
    assert forall k | k in Registered(fib) :: k == n;
    assert fib.TableOf(NARROW_TABLE) == map[];
    LookupIs(fib.TableOf(WIDE_TABLE), a, n);
    PrivateIffFirst(priv, a);
    FlatWide(priv, subs, n, a);
  }

  lemma {:induction false} Refutes(linkLocal: Bits, priv: seq<Bits>, permitted: iset<Bits>, subs: Table, a: Bits)
    requires forall k | k in permitted :: |k| <= |a|
    requires !(linkLocal <= a) && forall k | k in subs :: k in permitted
    requires PlacedWalk(linkLocal, priv, subs, a) != Flat(priv, subs, a)
    ensures !AgreesWithin(linkLocal, priv, permitted, |a|)
  {
    assert !AgreesAt(linkLocal, priv, subs, a);
    assert !AgreesFor(linkLocal, priv, subs, |a|);
  }

  /** Two different devices. */
  const DEVS := ["fou4_0a000001", "fou6_0a000001"]

  lemma {:induction false} AroundPrivate(
    linkLocal: Bits, priv: seq<Bits>, permitted: iset<Bits>, n: Bits, p: Bits, width: nat)
    requires |p| <= width && |linkLocal| <= width && forall k | k in permitted :: |k| <= width
    requires n in permitted && p in priv && n < p && !(linkLocal <= p) && Narrow(priv, n, width)
    ensures !AgreesWithin(linkLocal, priv, permitted, width)
  {
    var a := Escape(p, linkLocal, width);
    UnsafeDisagrees(linkLocal, priv, n, p, a, DEVS[0]);
    Refutes(linkLocal, priv, permitted, map[n := DEVS[0]], a);
  }

  lemma {:induction false} AroundWide(
    linkLocal: Bits, priv: seq<Bits>, permitted: iset<Bits>, subs: Table, n: Bits, q: Bits, a: Bits)
    requires !(linkLocal <= a) && forall k | k in permitted :: |k| <= |a|
    requires n in permitted && q in permitted && n < q <= a
    requires Narrow(priv, n, |a|) && !Narrow(priv, q, |a|)
    requires subs.Keys == {n, q} && subs[n] != subs[q]
    ensures !AgreesWithin(linkLocal, priv, permitted, |a|)
  {
    assert forall k | k in subs :: k in subs.Keys && k in permitted;
    HiddenDisagrees(linkLocal, priv, subs, n, q, a);
    Refutes(linkLocal, priv, permitted, subs, a);
  }

  lemma {:induction false} NotClearDisagrees(linkLocal: Bits, priv: seq<Bits>, permitted: iset<Bits>, width: nat, n: Bits)
    requires |linkLocal| <= width && forall p | p in priv :: |p| <= width
    requires forall k | k in permitted :: |k| <= width
    requires n in permitted && !Clear(linkLocal, priv, permitted, width, n)
    ensures !AgreesWithin(linkLocal, priv, permitted, width)
  {
    if p :| p in priv && n < p && !(linkLocal <= p) {
      AroundPrivate(linkLocal, priv, permitted, n, p, width);
    } else {
      var q :| q in permitted && n < q && !Narrow(priv, q, width) && !(linkLocal <= q);
      assert DEVS[0][3] != DEVS[1][3];
      AroundWide(linkLocal, priv, permitted, map[n := DEVS[0], q := DEVS[1]], n, q, Escape(q, linkLocal, width));
    }
  }

  lemma {:induction false} AroundLate(linkLocal: Bits, priv: seq<Bits>, permitted: iset<Bits>, n: Bits, a: Bits)
    requires !(linkLocal <= a) && forall k | k in permitted :: |k| <= |a|
    requires n in permitted && n <= a && !Narrow(priv, n, |a|) && LateAt(priv, a)
    ensures !AgreesWithin(linkLocal, priv, permitted, |a|)
  {
    var subs: Table := map[n := DEVS[0]];
    assert forall k | k in subs :: k in permitted;
    OvertakenDisagrees(linkLocal, priv, n, a, DEVS[0]);
    Refutes(linkLocal, priv, permitted, subs, a);
  }

  lemma {:induction false} OvertakesDisagrees(linkLocal: Bits, priv: seq<Bits>, permitted: iset<Bits>, width: nat, n: Bits)
    requires forall k | k in permitted :: |k| <= width
    requires n in permitted && Overtakes(linkLocal, priv, n, width)
    ensures !AgreesWithin(linkLocal, priv, permitted, width)
  {
    var a: Bits :| |a| == width && n <= a && !(linkLocal <= a) && LateAt(priv, a);
    AroundLate(linkLocal, priv, permitted, n, a);
  }

  lemma {:induction false} ClearIsNarrowFirst(linkLocal: Bits, priv: seq<Bits>, permitted: iset<Bits>, fib: Fib, a: Bits)
    requires forall k | k in permitted :: |k| <= |a|
    requires forall n | n in permitted :: Clear(linkLocal, priv, permitted, |a|, n)
    requires !(linkLocal <= a) && Classified(fib, priv, |a|) && forall n | n in Registered(fib) :: n in permitted
    ensures NarrowFirst(priv, fib.TableOf(NARROW_TABLE), fib.TableOf(WIDE_TABLE), a)
  {
    var narrow, wide := fib.TableOf(NARROW_TABLE), fib.TableOf(WIDE_TABLE);
    forall m, q | m in narrow && m <= a && (q in wide || q in priv) && q <= a
      ensures |q| <= |m|
    {
      assert m in Registered(fib) && (q in wide ==> q in Registered(fib));
      Nested(m, q, a);
      assert Clear(linkLocal, priv, permitted, |a|, m);
    }
  }

  lemma {:induction false} OvertakenBy(linkLocal: Bits, priv: seq<Bits>, fib: Fib, a: Bits)
    requires Classified(fib, priv, |a|) && !(linkLocal <= a) && Overtaken(priv, [], fib, a)
    ensures exists n | n in fib.TableOf(WIDE_TABLE) :: Overtakes(linkLocal, priv, n, |a|)
  {
    var n := Longest(fib.TableOf(WIDE_TABLE).Keys, a).value;
    assert LateAt(priv, a);
    assert Overtakes(linkLocal, priv, n, |a|);
  }

  lemma {:induction false} ClearAgrees(linkLocal: Bits, priv: seq<Bits>, permitted: iset<Bits>, subs: Table, a: Bits)
    requires forall k | k in permitted :: |k| <= |a|
    requires forall n | n in permitted :: Clear(linkLocal, priv, permitted, |a|, n)
    requires forall n | n in permitted :: !Overtakes(linkLocal, priv, n, |a|)
    requires !(linkLocal <= a) && forall n | n in subs :: n in permitted
    ensures AgreesAt(linkLocal, priv, subs, a)
  {
    var fib := Placed(subs, linkLocal, priv, |a|);
    assert forall n | n in fib.TableOf(WIDE_TABLE) :: n in Registered(fib);
    PlacedTiers(linkLocal, priv, subs, a);
    ClearIsNarrowFirst(linkLocal, priv, permitted, fib, a);
    FlatIsTiers(priv, [], fib, a);
    if Overtaken(priv, [], fib, a) {
      OvertakenBy(linkLocal, priv, fib, a);
    }
  }

  /** For any collection of permitted subnets and any private networks: the kernel's walk and the flat table
      agree for every registered set and every address exactly when every permitted subnet is clear and
      overtakes no private network. */
  lemma {:induction false} FlatIffClear(linkLocal: Bits, priv: seq<Bits>, permitted: iset<Bits>, width: nat)
    requires |linkLocal| <= width && forall p | p in priv :: |p| <= width
    requires forall n | n in permitted :: |n| <= width
    ensures AgreesWithin(linkLocal, priv, permitted, width)
       <==> forall n | n in permitted ::
              Clear(linkLocal, priv, permitted, width, n) && !Overtakes(linkLocal, priv, n, width)
  {
    if n :| n in permitted && !Clear(linkLocal, priv, permitted, width, n) {
      NotClearDisagrees(linkLocal, priv, permitted, width, n);
    } else if n :| n in permitted && Overtakes(linkLocal, priv, n, width) {
      OvertakesDisagrees(linkLocal, priv, permitted, width, n);
    } else {
      forall subs: Table | forall n | n in subs :: n in permitted
        ensures AgreesFor(linkLocal, priv, subs, width)
      {
        forall a: Bits | |a| == width && !(linkLocal <= a)
          ensures AgreesAt(linkLocal, priv, subs, a)
        {
          ClearAgrees(linkLocal, priv, permitted, subs, a);
        }
      }
    }
  }

  lemma {:induction false} ClearIffSafe(linkLocal: Bits, priv: seq<Bits>, permitted: iset<Bits>, width: nat, n: Bits)
    requires forall p | p in priv :: !(linkLocal <= p)
    requires forall k | k in permitted :: |k| <= width
    requires n in permitted
    ensures Clear(linkLocal, priv, permitted, width, n) <==> Safe(priv, n, width)
  {
    if Safe(priv, n, width) && Narrow(priv, n, width) {
      forall q | q in permitted && n < q
        ensures Narrow(priv, q, width)
      {
        NarrowSpreads(priv, n, q, width);
      }
    }
  }

  /** Up to 101 private networks, none inside the link-local range, safety alone decides. */
  lemma {:induction false} FlatIffSafe(linkLocal: Bits, priv: seq<Bits>, permitted: iset<Bits>, width: nat)
    requires |linkLocal| <= width && |priv| <= MAX_PRIVATE
    requires forall p | p in priv :: |p| <= width && !(linkLocal <= p)
    requires forall n | n in permitted :: |n| <= width
    ensures AgreesWithin(linkLocal, priv, permitted, width) <==> forall n | n in permitted :: Safe(priv, n, width)
  {
    FlatIffClear(linkLocal, priv, permitted, width);
    forall n | n in permitted
      ensures Safe(priv, n, width)
         <==> Clear(linkLocal, priv, permitted, width, n) && !Overtakes(linkLocal, priv, n, width)
    {
      ClearIffSafe(linkLocal, priv, permitted, width, n);
    }
  }

  /** 101 times 10.0.0.0/8 and then 192.168.0.0/16. */
  const MANY: seq<Bits> := seq(MAX_PRIVATE, _ => V4_PRIVATE[0]) + [V4_PRIVATE[2]]

  /** Beyond the bound safety is not enough: the default route is safe, the flat table keeps 192.168.0.0/16 in
      the main table, and the installed rules send it into the tunnel. */
  lemma {:induction false} ManyNetworksLeak(a: Bits, dev: string)
    requires |a| == Width(V4) && V4_PRIVATE[2] <= a
    ensures Safe(MANY, [], |a|) && !(V4_LINK_LOCAL <= a)
    ensures Flat(MANY, map[[] := dev], a) == Main
    ensures PlacedWalk(V4_LINK_LOCAL, MANY, map[[] := dev], a) == Via(dev)
  {
    var p, q := V4_PRIVATE[0], V4_PRIVATE[2];
    assert forall x | x in MANY :: x == p || x == q;
    assert p[4] && q[0] && !p[0] && !q[2] && V4_LINK_LOCAL[2] && a[0] == q[0] && a[2] == q[2];
    assert !Base([], |a|)[0] && !Base([], |a|)[4];
    assert !Narrow(MANY, [], |a|);
    assert forall i | 0 <= i < MAX_PRIVATE :: MANY[i] == p && !(p <= a);
    assert MANY[MAX_PRIVATE] == q;
    OvertakenDisagrees(V4_LINK_LOCAL, MANY, [], a, dev);
  }

  /** The built-in configuration routes as one flat table for every registered set if and only if the
      permitted subnets avoid the listed exceptions. */
  lemma {:induction false} BuiltinFlat(f: Family, permitted: iset<Bits>)
    requires forall n | n in permitted :: |n| <= Width(f)
    ensures AgreesWithin(LinkLocal(f), BuiltinPrivate(f), permitted, Width(f))
       <==> forall n | n in permitted :: n !in Exceptions(f)
  {
    BuiltinShape(f);
    FlatIffSafe(LinkLocal(f), BuiltinPrivate(f), permitted, Width(f));
    forall n | n in permitted
      ensures Safe(BuiltinPrivate(f), n, Width(f)) <==> n !in Exceptions(f)
    {
      BuiltinExceptions(f, n);
    }
  }
}
