/** The client's band of policy rules: taking it out of a rule list and putting it back in. */
module RuleBands {
  import opened Cidr
  import opened Kernel
  import opened Routing

  const BAND_LOW := 1800
  const BAND_HIGH := 2100
  /** Priorities 2000..2100; the last one is shared with the wide rule, which is added later. */
  const MAX_PRIVATE := 101

  predicate InBand(r: Rule) {
    BAND_LOW <= r.prio <= BAND_HIGH
  }

  function OutOfBand(rules: seq<Rule>): seq<Rule> {
    if rules == [] then []
    else if InBand(rules[0]) then OutOfBand(rules[1..])
    else [rules[0]] + OutOfBand(rules[1..])
  }

  lemma {:induction false} OutOfBandMembers(rules: seq<Rule>)
    ensures forall x :: x in OutOfBand(rules) <==> x in rules && !InBand(x)
  {
    if rules != [] {
      OutOfBandMembers(rules[1..]);
      assert rules == [rules[0]] + rules[1..];
    }
  }

  lemma {:induction false} OutOfBandConcat(x: seq<Rule>, y: seq<Rule>)
    ensures OutOfBand(x + y) == OutOfBand(x) + OutOfBand(y)
  {
    if x == [] {
      assert x + y == y;
    } else {
      assert (x + y)[1..] == x[1..] + y;
      OutOfBandConcat(x[1..], y);
    }
  }

  lemma {:induction false} OutOfBandFixed(x: seq<Rule>)
    requires forall r | r in x :: !InBand(r)
    ensures OutOfBand(x) == x
  {
    if x != [] {
      assert x[0] in x;
      OutOfBandFixed(x[1..]);
    }
  }

  lemma {:induction false} OutOfBandEmpty(x: seq<Rule>)
    requires forall r | r in x :: InBand(r)
    ensures OutOfBand(x) == []
  {
    if x != [] {
      assert x[0] in x;
      OutOfBandEmpty(x[1..]);
    }
  }

  lemma {:induction false} OutOfBandSorted(x: seq<Rule>)
    requires RulesOk(x)
    ensures RulesOk(OutOfBand(x))
  {
    if x != [] {
      var rest := OutOfBand(x[1..]);
      OutOfBandSorted(x[1..]);
      OutOfBandMembers(x[1..]);
      assert ([x[0]] + rest)[1..] == rest;
    }
  }

  /** The leading rules that come before the band. */
  function Below(rules: seq<Rule>): (s: seq<Rule>)
    ensures s <= rules && forall x | x in s :: x.prio < BAND_LOW
  {
    if rules == [] || rules[0].prio >= BAND_LOW then [] else [rules[0]] + Below(rules[1..])
  }

  function Above(rules: seq<Rule>): (s: seq<Rule>)
    ensures Below(rules) + s == rules
  {
    rules[|Below(rules)|..]
  }

  lemma {:induction false} AboveIsAbove(rules: seq<Rule>)
    requires RulesOk(rules) && forall r | r in rules :: !InBand(r)
    ensures forall x | x in Above(rules) :: x.prio > BAND_HIGH
  {
    if rules != [] {
      assert rules[0] in rules;
      assert rules == [rules[0]] + rules[1..];
      if rules[0].prio < BAND_LOW {
        AboveIsAbove(rules[1..]);
        assert Above(rules) == Above(rules[1..]);
      }
    }
  }

  // ---- installing the band ---------------------------------------------------------------------

  function Install(rules: seq<Rule>, band: seq<Rule>): seq<Rule> {
    if band == [] then rules
    else Insert(Install(rules, band[..|band| - 1]), band[|band| - 1])
  }

  lemma {:induction false} InstallStep(rules: seq<Rule>, band: seq<Rule>, i: nat)
    requires i < |band|
    ensures Install(rules, band[..i + 1]) == Insert(Install(rules, band[..i]), band[i])
  {
    assert band[..i + 1][..i] == band[..i];
  }

  lemma {:induction false} InstallMembers(rules: seq<Rule>, band: seq<Rule>)
    ensures forall x :: x in Install(rules, band) <==> x in rules || x in band
  {
    if band != [] {
      var i := |band| - 1;
      InstallMembers(rules, band[..i]);
      InsertMembers(Install(rules, band[..i]), band[i]);
      assert band == band[..i] + [band[i]];
    }
  }

  /** No rule of the band is there already when its turn comes. */
  ghost predicate AllNew(kept: seq<Rule>, band: seq<Rule>) {
    forall i | 0 <= i < |band| :: band[i] !in Install(kept, band[..i])
  }

  /** The same after the client's own rules have been cleared. */
  ghost predicate Fresh(rules: seq<Rule>, band: seq<Rule>) {
    AllNew(OutOfBand(rules), band)
  }

  /** The band rule by rule. */
  ghost predicate IsBand(band: seq<Rule>, linkLocal: Bits, priv: seq<Bits>) {
    && |band| == |priv| + 3
    && band[0] == Rule(LINK_LOCAL_PRIO, MAIN_TABLE, linkLocal)
    && band[1] == Rule(NARROW_PRIO, NARROW_TABLE, [])
    && (forall i | 0 <= i < |priv| :: band[i + 2] == Rule(LOCAL_PRIO_BASE + i, MAIN_TABLE, priv[i]))
    && band[|priv| + 2] == Rule(WIDE_PRIO, WIDE_TABLE, [])
  }

  /** The client's rules as the kernel sees them: priorities, tables and destinations. */
  lemma {:induction false} RulesOnTheWire(linkLocal: Bits, priv: seq<Bits>, r: Rule)
    ensures r in Band(linkLocal, priv)
       <==> || r == Rule(1800, 254, linkLocal)
            || r == Rule(1900, 117, [])
            || (2000 <= r.prio < 2000 + |priv| && r == Rule(r.prio, 254, priv[r.prio - 2000]))
            || r == Rule(2100, 118, [])
  {
    var band := Band(linkLocal, priv);
    BandIsBand(linkLocal, priv);
    if r in band {
      var i :| 0 <= i < |band| && band[i] == r;
      assert 2 <= i < |priv| + 2 ==> band[i - 2 + 2] == r;
    }
    if 2000 <= r.prio < 2000 + |priv| && r == Rule(r.prio, 254, priv[r.prio - 2000]) {
      assert band[r.prio - 2000 + 2] == r;
    }
  }

  lemma BandIsBand(linkLocal: Bits, priv: seq<Bits>)
    ensures IsBand(Band(linkLocal, priv), linkLocal, priv)
  {
  }

  lemma {:induction false} BandDistinct(linkLocal: Bits, priv: seq<Bits>)
    ensures Distinct(Band(linkLocal, priv))
  {
  }

  ghost predicate Ascending(band: seq<Rule>) {
    forall i, j | 0 <= i < j < |band| :: band[i].prio <= band[j].prio
  }

  lemma {:induction false} BandInside(linkLocal: Bits, priv: seq<Bits>)
    requires |priv| <= MAX_PRIVATE
    ensures Ascending(Band(linkLocal, priv)) && forall r | r in Band(linkLocal, priv) :: InBand(r)
  {
  }

  /** The canonical rule list: what lies outside the band, with the band in its place. */
  function Canonical(rules: seq<Rule>, linkLocal: Bits, priv: seq<Bits>): seq<Rule> {
    var kept := OutOfBand(rules);
    Below(kept) + Band(linkLocal, priv) + Above(kept)
  }

  lemma {:induction false} NotAfter(pre: seq<Rule>, band: seq<Rule>, k: nat, x: Rule)
    requires k < |band| && Ascending(band) && forall y, r | y in pre && r in band :: y.prio <= r.prio
    requires x in pre + band[..k]
    ensures x.prio <= band[k].prio
  {
    assert band[k] in band;
    if x !in pre {
      var j :| 0 <= j < k && band[..k][j] == x;
      assert band[j] == x;
    }
  }

  lemma {:induction false} InsertNext(pre: seq<Rule>, band: seq<Rule>, post: seq<Rule>, k: nat)
    requires k < |band| && Ascending(band) && forall y, r | y in pre && r in band :: y.prio <= r.prio
    requires forall x | x in post :: x.prio > band[k].prio
    ensures Insert(pre + band[..k] + post, band[k]) == pre + band[..k + 1] + post
  {
    forall x | x in pre + band[..k]
      ensures x.prio <= band[k].prio
    {
      NotAfter(pre, band, k, x);
    }
    InsertBetween(pre + band[..k], band[k], post);
    assert pre + band[..k] + [band[k]] == pre + band[..k + 1];
  }

  lemma {:induction false} InstallPrefix(pre: seq<Rule>, band: seq<Rule>, post: seq<Rule>, k: nat)
    requires Ascending(band) && k <= |band|
    requires forall x, r | x in pre && r in band :: x.prio <= r.prio
    requires forall x, r | x in post && r in band :: x.prio > r.prio
    ensures Install(pre + post, band[..k]) == pre + band[..k] + post
  {
    if k == 0 {
      assert band[..0] == [] && pre + [] == pre;
    } else {
      InstallPrefix(pre, band, post, k - 1);
      InstallStep(pre + post, band, k - 1);
      assert band[k - 1] in band;
      InsertNext(pre, band, post, k - 1);
    }
  }

  lemma {:induction false} InstallBetween(pre: seq<Rule>, band: seq<Rule>, post: seq<Rule>)
    requires Ascending(band)
    requires forall x, r | x in pre && r in band :: x.prio <= r.prio
    requires forall x, r | x in post && r in band :: x.prio > r.prio
    ensures Install(pre + post, band) == pre + band + post
  {
    InstallPrefix(pre, band, post, |band|);
    assert band[..|band|] == band;
  }

  lemma {:induction false} InstallConcat(rules: seq<Rule>, x: seq<Rule>, y: seq<Rule>)
    ensures Install(rules, x + y) == Install(Install(rules, x), y)
  {
    if y == [] {
      assert x + y == x;
    } else {
      var k := |y| - 1;
      InstallConcat(rules, x, y[..k]);
      assert (x + y)[..|x + y| - 1] == x + y[..k];
    }
  }

  /** Rules whose priority value is not smaller go behind. */
  lemma {:induction false} InstallBehind(pre: seq<Rule>, rules: seq<Rule>, band: seq<Rule>)
    requires forall x, r | x in pre && r in band :: x.prio <= r.prio
    ensures Install(pre + rules, band) == pre + Install(rules, band)
  {
    if band != [] {
      var k := |band| - 1;
      assert band[k] in band;
      InstallBehind(pre, rules, band[..k]);
      InsertBehind(pre, Install(rules, band[..k]), band[k]);
    }
  }

  /** The private networks whose rules reach the kernel's list ahead of the wide rule. */
  function Early(priv: seq<Bits>): seq<Bits> {
    if |priv| <= MAX_PRIVATE then priv else priv[..MAX_PRIVATE]
  }

  /** The rules of the others: their priorities are above the band. */
  function LateRules(priv: seq<Bits>): (s: seq<Rule>)
    ensures |s| == |priv| - |Early(priv)|
    ensures forall i | 0 <= i < |s| ::
              s[i] == Rule(WIDE_PRIO + 1 + i, MAIN_TABLE, priv[MAX_PRIVATE + i])
  {
    Locals(priv)[|Early(priv)|..]
  }

  /** The rules the client adds before the wide rule and ahead of it. */
  function Core(linkLocal: Bits, priv: seq<Bits>): (s: seq<Rule>)
    ensures s + [Rule(WIDE_PRIO, WIDE_TABLE, [])] == Band(linkLocal, Early(priv))
    ensures s + LateRules(priv) + [Rule(WIDE_PRIO, WIDE_TABLE, [])] == Band(linkLocal, priv)
  {
    [Rule(LINK_LOCAL_PRIO, MAIN_TABLE, linkLocal), Rule(NARROW_PRIO, NARROW_TABLE, [])] + Locals(Early(priv))
  }

  lemma {:induction false} CoreInside(linkLocal: Bits, priv: seq<Bits>)
    ensures Ascending(Core(linkLocal, priv)) && forall r | r in Core(linkLocal, priv) :: InBand(r)
  {
    BandInside(linkLocal, Early(priv));
    var core := Core(linkLocal, priv);
    assert Band(linkLocal, Early(priv))[..|core|] == core;
  }

  lemma {:induction false} InstallCore(pre: seq<Rule>, post: seq<Rule>, linkLocal: Bits, priv: seq<Bits>)
    requires forall x | x in pre :: x.prio < BAND_LOW
    requires forall x | x in post :: x.prio > BAND_HIGH
    ensures Install(pre + post, Core(linkLocal, priv) + LateRules(priv))
         == pre + Core(linkLocal, priv) + Install(post, LateRules(priv))
  {
    var core, late := Core(linkLocal, priv), LateRules(priv);
    CoreInside(linkLocal, priv);
    InstallConcat(pre + post, core, late);
    InstallBetween(pre, core, post);
    InstallBehind(pre + core, post, late);
  }

  lemma {:induction false} InstallWide(core: seq<Rule>, late: seq<Rule>, pre: seq<Rule>, post: seq<Rule>, wide: Rule)
    requires Install(pre + post, core + late) == pre + core + Install(post, late)
    requires forall x | x in pre + core :: x.prio <= wide.prio
    requires forall x | x in post + late :: x.prio > wide.prio
    ensures Install(pre + post, core + late + [wide]) == pre + (core + [wide]) + Install(post, late)
  {
    InstallConcat(pre + post, core + late, [wide]);
    InstallOne(Install(pre + post, core + late), wide);
    InstallMembers(post, late);
    InsertBetween(pre + core, wide, Install(post, late));
    assert pre + core + [wide] == pre + (core + [wide]);
  }

  lemma {:induction false} InstallAround(pre: seq<Rule>, post: seq<Rule>, linkLocal: Bits, priv: seq<Bits>)
    requires forall x | x in pre :: x.prio < BAND_LOW
    requires forall x | x in post :: x.prio > BAND_HIGH
    ensures Install(pre + post, Band(linkLocal, priv))
         == pre + Band(linkLocal, Early(priv)) + Install(post, LateRules(priv))
  {
    CoreInside(linkLocal, priv);
    InstallCore(pre, post, linkLocal, priv);
    InstallWide(Core(linkLocal, priv), LateRules(priv), pre, post, Rule(WIDE_PRIO, WIDE_TABLE, []));
  }

  lemma {:induction false} AroundBand(rules: seq<Rule>)
    requires RulesOk(rules)
    ensures forall x | x in Below(OutOfBand(rules)) :: x.prio < BAND_LOW
    ensures forall x | x in Above(OutOfBand(rules)) :: x.prio > BAND_HIGH
  {
    OutOfBandSorted(rules);
    OutOfBandMembers(rules);
    AboveIsAbove(OutOfBand(rules));
  }

  /** For any number of private networks, adding the rules one by one gives: the rules below the band, the
      band of the first 101 networks, and the rules above it with the remaining private rules among them. */
  lemma {:induction false} InstallShape(rules: seq<Rule>, linkLocal: Bits, priv: seq<Bits>)
    requires RulesOk(rules)
    ensures var kept := OutOfBand(rules);
            Install(kept, Band(linkLocal, priv))
            == Below(kept) + Band(linkLocal, Early(priv)) + Install(Above(kept), LateRules(priv))
  {
    AroundBand(rules);
    InstallAround(Below(OutOfBand(rules)), Above(OutOfBand(rules)), linkLocal, priv);
  }

  lemma {:induction false} InstallOne(rules: seq<Rule>, r: Rule)
    ensures Install(rules, [r]) == Insert(rules, r)
  {
    assert [r][..0] == [];
  }

  /** Up to the bound, adding the rules one by one gives the canonical list. */
  lemma {:induction false} InstallIsCanonical(rules: seq<Rule>, linkLocal: Bits, priv: seq<Bits>)
    requires RulesOk(rules) && |priv| <= MAX_PRIVATE
    ensures Install(OutOfBand(rules), Band(linkLocal, priv)) == Canonical(rules, linkLocal, priv)
  {
    InstallShape(rules, linkLocal, priv);
  }

  lemma {:induction false} FreshWithinBound(rules: seq<Rule>, linkLocal: Bits, priv: seq<Bits>)
    requires |priv| <= MAX_PRIVATE
    ensures Fresh(rules, Band(linkLocal, priv))
  {
    var band := Band(linkLocal, priv);
    BandInside(linkLocal, priv);
    BandDistinct(linkLocal, priv);
    OutOfBandMembers(rules);
    forall i | 0 <= i < |band|
      ensures band[i] !in Install(OutOfBand(rules), band[..i])
    {
      InstallMembers(OutOfBand(rules), band[..i]);
      assert band[i] in band;
    }
  }

  lemma {:induction false} OutOfBandSandwich(pre: seq<Rule>, band: seq<Rule>, post: seq<Rule>)
    requires forall r | r in band :: InBand(r)
    requires forall r | r in pre :: !InBand(r)
    requires forall r | r in post :: !InBand(r)
    ensures OutOfBand(pre + band + post) == pre + post
  {
    OutOfBandConcat(pre + band, post);
    OutOfBandConcat(pre, band);
    OutOfBandEmpty(band);
    OutOfBandFixed(pre);
    OutOfBandFixed(post);
    assert pre + [] == pre;
  }

  lemma {:induction false} CanonicalKeepsOutside(rules: seq<Rule>, linkLocal: Bits, priv: seq<Bits>)
    requires |priv| <= MAX_PRIVATE
    ensures OutOfBand(Canonical(rules, linkLocal, priv)) == OutOfBand(rules)
  {
    var kept := OutOfBand(rules);
    BandInside(linkLocal, priv);
    OutOfBandMembers(rules);
    assert forall r | r in Above(kept) :: r in kept;
    OutOfBandSandwich(Below(kept), Band(linkLocal, priv), Above(kept));
  }

  /** What Init leaves outside the band: the rules found there, and the private rules from number 102 on. */
  lemma {:induction false} OutsideAfterInstall(rules: seq<Rule>, linkLocal: Bits, priv: seq<Bits>)
    requires RulesOk(rules)
    ensures OutOfBand(Install(OutOfBand(rules), Band(linkLocal, priv))) == Install(OutOfBand(rules), LateRules(priv))
  {
    var kept, late := OutOfBand(rules), LateRules(priv);
    AroundBand(rules);
    InstallShape(rules, linkLocal, priv);
    BandInside(linkLocal, Early(priv));
    InstallMembers(Above(kept), late);
    OutOfBandSandwich(Below(kept), Band(linkLocal, Early(priv)), Install(Above(kept), late));
    InstallBehind(Below(kept), Above(kept), late);
  }

  /** Init leaves the rules outside 1800..2100 alone exactly when there are at most 101 private networks. */
  lemma {:induction false} FrameIffWithinBound(rules: seq<Rule>, linkLocal: Bits, priv: seq<Bits>)
    requires RulesOk(rules)
    ensures OutOfBand(Install(OutOfBand(rules), Band(linkLocal, priv))) == OutOfBand(rules) <==> |priv| <= MAX_PRIVATE
  {
    OutsideAfterInstall(rules, linkLocal, priv);
    InstallLength(OutOfBand(rules), LateRules(priv));
  }

  lemma {:induction false} InstallLength(rules: seq<Rule>, band: seq<Rule>)
    ensures |Install(rules, band)| == |rules| + |band|
  {
    if band != [] {
      InstallLength(rules, band[..|band| - 1]);
    }
  }

  /** A client can be initialised a second time exactly when it has at most 101 private networks: rule
      number 102 lands above the band, survives the clearing, and collides with itself. */
  lemma {:induction false} ReinitIffWithinBound(rules: seq<Rule>, linkLocal: Bits, priv: seq<Bits>)
    ensures Fresh(Install(OutOfBand(rules), Band(linkLocal, priv)), Band(linkLocal, priv)) <==> |priv| <= MAX_PRIVATE
  {
    var band := Band(linkLocal, priv);
    var once := Install(OutOfBand(rules), band);
    if |priv| <= MAX_PRIVATE {
      FreshWithinBound(once, linkLocal, priv);
    } else {
      var i := MAX_PRIVATE + 2;
      BandIsBand(linkLocal, priv);
      InstallMembers(OutOfBand(rules), band);
      assert band[i] in band;
      InstallMembers(OutOfBand(once), band[..i]);
      OutOfBandMembers(once);
    }
  }

  // ---- single steps of clearing and installing -----------------------------------------------------

  lemma {:induction false} OnlyAt(rs: seq<Rule>, x: seq<Rule>, r: Rule, y: seq<Rule>)
    requires RulesOk(rs) && rs == x + ([r] + y)
    ensures r !in x && r !in y
  {
    if x == [] {
      assert rs[1..] == y;
    } else {
      assert rs[1..] == x[1..] + ([r] + y);
      OnlyAt(rs[1..], x[1..], r, y);
      assert r in rs[1..];
    }
  }

  lemma {:induction false} OutOfBandSnoc(x: seq<Rule>, r: Rule)
    ensures OutOfBand(x + [r]) == OutOfBand(x) + (if InBand(r) then [] else [r])
  {
    OutOfBandConcat(x, [r]);
    assert [r][1..] == [];
  }

  /** A rule outside the band stays where it is. */
  lemma {:induction false} ClearKeeps(x: seq<Rule>, r: Rule, y: seq<Rule>)
    requires !InBand(r)
    ensures OutOfBand(x + [r]) + y == OutOfBand(x) + ([r] + y)
  {
    OutOfBandSnoc(x, r);
  }

  lemma {:induction false} DropMiddle(kept: seq<Rule>, r: Rule, y: seq<Rule>)
    requires r !in kept && r !in y
    ensures Without(kept + ([r] + y), r) == kept + y
  {
    WithoutMiddle(kept, r, y);
    assert kept + ([r] + y) == kept + [r] + y;
  }

  /** Deleting a rule of the band removes that rule and no other. */
  lemma {:induction false} ClearDrops(x: seq<Rule>, r: Rule, y: seq<Rule>)
    requires InBand(r) && r !in x && r !in y
    ensures OutOfBand(x + [r]) + y == Without(OutOfBand(x) + ([r] + y), r)
  {
    var kept := OutOfBand(x);
    OutOfBandSnoc(x, r);
    assert kept + [] == kept;
    OutOfBandMembers(x);
    DropMiddle(kept, r, y);
  }

  lemma {:induction false} OutOfBandIdempotent(x: seq<Rule>)
    ensures OutOfBand(OutOfBand(x)) == OutOfBand(x)
  {
    OutOfBandMembers(x);
    OutOfBandFixed(OutOfBand(x));
  }

  lemma {:induction false} OutOfBandResume(x: seq<Rule>, y: seq<Rule>)
    ensures OutOfBand(OutOfBand(x) + y) == OutOfBand(x + y)
  {
    OutOfBandConcat(OutOfBand(x), y);
    OutOfBandConcat(x, y);
    OutOfBandIdempotent(x);
  }

  /** The list after the band has been removed from its first `i` rules. */
  function Swept(rs: seq<Rule>, i: nat): seq<Rule>
    requires i <= |rs|
  {
    OutOfBand(rs[..i]) + rs[i..]
  }

  lemma {:induction false} SweptEnds(rs: seq<Rule>, i: nat)
    requires i <= |rs|
    ensures i == 0 ==> Swept(rs, i) == rs
    ensures OutOfBand(Swept(rs, i)) == OutOfBand(rs)
    ensures i == |rs| ==> Swept(rs, i) == OutOfBand(rs)
  {
    OutOfBandResume(rs[..i], rs[i..]);
    assert rs[..i] + rs[i..] == rs;
    assert i == |rs| ==> rs[..i] == rs && rs[i..] == [];
    assert i == 0 ==> rs[..i] == [] && rs[i..] == rs;
  }

  /** Looking at one more rule keeps it or deletes it and no other. */
  lemma {:induction false} ClearTurn(rs: seq<Rule>, i: nat)
    requires RulesOk(rs) && i < |rs|
    ensures rs[i] in Swept(rs, i)
    ensures Swept(rs, i + 1) == if InBand(rs[i]) then Without(Swept(rs, i), rs[i]) else Swept(rs, i)
  {
    var x, r, y := rs[..i], rs[i], rs[i + 1..];
    assert rs[i..] == [r] + y && rs[..i + 1] == x + [r];
    if InBand(r) {
      assert rs == x + ([r] + y);
      OnlyAt(rs, x, r, y);
      ClearDrops(x, r, y);
    } else {
      ClearKeeps(x, r, y);
    }
  }

  lemma {:induction false} InstallOutsidePrefix(rules: seq<Rule>, band: seq<Rule>, i: nat)
    requires i <= |band| && forall r | r in band :: InBand(r)
    ensures OutOfBand(Install(rules, band[..i])) == OutOfBand(rules)
  {
    if i > 0 {
      InstallOutsidePrefix(rules, band, i - 1);
      InstallStep(rules, band, i - 1);
      assert band[i - 1] in band;
      InsertOutside(Install(rules, band[..i - 1]), band[i - 1]);
    }
  }

  lemma {:induction false} InsertOutside(rules: seq<Rule>, r: Rule)
    requires InBand(r)
    ensures OutOfBand(Insert(rules, r)) == OutOfBand(rules)
  {
    if rules == [] || rules[0].prio > r.prio {
      assert ([r] + rules)[1..] == rules;
    } else {
      InsertOutside(rules[1..], r);
      var rest := Insert(rules[1..], r);
      assert ([rules[0]] + rest)[1..] == rest;
    }
  }

  /** While the band is being installed, what lies outside it stays. */
  lemma {:induction false} InstallOutside(rules: seq<Rule>, linkLocal: Bits, priv: seq<Bits>)
    ensures |priv| <= MAX_PRIVATE ==>
              forall i | 0 <= i <= |priv| + 3 ::
                OutOfBand(Install(OutOfBand(rules), Band(linkLocal, priv)[..i])) == OutOfBand(rules)
  {
    if |priv| <= MAX_PRIVATE {
      BandInside(linkLocal, priv);
      OutOfBandMembers(rules);
      OutOfBandFixed(OutOfBand(rules));
      forall i | 0 <= i <= |priv| + 3
        ensures OutOfBand(Install(OutOfBand(rules), Band(linkLocal, priv)[..i])) == OutOfBand(rules)
      {
        InstallOutsidePrefix(OutOfBand(rules), Band(linkLocal, priv), i);
      }
    }
  }
}
