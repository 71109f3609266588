/** What the rules and tables written by the NAT client mean: a walk over the rules by priority with a
    longest-prefix match in each table, compared with one flat longest-prefix-match table. */
module Routing {
  import opened Cidr
  import opened Kernel

  const NARROW_TABLE := 117
  const WIDE_TABLE := 118
  const LINK_LOCAL_PRIO := 1800
  const NARROW_PRIO := 1900
  const LOCAL_PRIO_BASE := 2000
  const WIDE_PRIO := 2100

  /** `Main` is the end of the walk: the main table has a default route. */
  datatype Hop = Main | Via(dev: string) | NoMatch

  function OrElse(h: Hop, k: Hop): Hop {
    if h.NoMatch? then k else h
  }

  function Visit(r: Rule, fib: Fib, a: Bits): Hop {
    if !(r.dst <= a) then NoMatch
    else if r.table == MAIN_TABLE then Main
    else match Lookup(fib.TableOf(r.table), a)
         case None => NoMatch
         case Some(dev) => Via(dev)
  }

  function Walk(rules: seq<Rule>, fib: Fib, a: Bits): Hop {
    if rules == [] then NoMatch
    else OrElse(Visit(rules[0], fib, a), Walk(rules[1..], fib, a))
  }

  lemma {:induction false} WalkConcat(x: seq<Rule>, y: seq<Rule>, fib: Fib, a: Bits)
    ensures Walk(x + y, fib, a) == OrElse(Walk(x, fib, a), Walk(y, fib, a))
  {
    if x == [] {
      assert x + y == y;
    } else {
      assert (x + y)[1..] == x[1..] + y;
      WalkConcat(x[1..], y, fib, a);
    }
  }

  // ---- the rules of one family ---------------------------------------------------------------

  function Locals(priv: seq<Bits>): (s: seq<Rule>)
    ensures |s| == |priv|
  {
    seq(|priv|, i requires 0 <= i < |priv| => Rule(LOCAL_PRIO_BASE + i, MAIN_TABLE, priv[i]))
  }

  /** The rules in the order the client adds them. */
  function Band(linkLocal: Bits, priv: seq<Bits>): (s: seq<Rule>)
    ensures |s| == |priv| + 3
  {
    [Rule(LINK_LOCAL_PRIO, MAIN_TABLE, linkLocal), Rule(NARROW_PRIO, NARROW_TABLE, [])]
    + Locals(priv) + [Rule(WIDE_PRIO, WIDE_TABLE, [])]
  }

  predicate Private(priv: seq<Bits>, a: Bits) {
    exists p | p in priv :: p <= a
  }

  /** The classifier of the client: the base address alone decides. */
  predicate Narrow(priv: seq<Bits>, n: Bits, width: nat)
    requires |n| <= width
  {
    Private(priv, Base(n, width))
  }

  lemma {:induction false} PrivateSplit(p: Bits, rest: seq<Bits>, a: Bits)
    ensures Private([p] + rest, a) <==> p <= a || Private(rest, a)
  {
    assert p in [p] + rest;
    assert forall q :: q in [p] + rest <==> q == p || q in rest;
  }

  lemma {:induction false} WalkLocalsFrom(priv: seq<Bits>, i: nat, fib: Fib, a: Bits)
    requires i <= |priv|
    ensures Walk(Locals(priv)[i..], fib, a) == if Private(priv[i..], a) then Main else NoMatch
    decreases |priv| - i
  {
    if i < |priv| {
      WalkLocalsFrom(priv, i + 1, fib, a);
      var s := Locals(priv)[i..];
      assert s[1..] == Locals(priv)[i + 1..];
      assert priv[i..] == [priv[i]] + priv[i + 1..];
      PrivateSplit(priv[i], priv[i + 1..], a);
      assert Visit(s[0], fib, a) == if priv[i] <= a then Main else NoMatch;
    }
  }

  function TableHop(t: Table, a: Bits): Hop {
    match Lookup(t, a)
    case None => NoMatch
    case Some(dev) => Via(dev)
  }

  /** The band in the order of adding, which is the kernel's order while the private rules stay below the
      wide one: link-local, the narrow table, the private networks, the wide table. */
  lemma {:induction false} WalkBand(linkLocal: Bits, priv: seq<Bits>, fib: Fib, a: Bits)
    ensures Walk(Band(linkLocal, priv), fib, a)
         == if linkLocal <= a then Main
            else OrElse(TableHop(fib.TableOf(NARROW_TABLE), a),
                        if Private(priv, a) then Main else TableHop(fib.TableOf(WIDE_TABLE), a))
  {
    var first := Rule(LINK_LOCAL_PRIO, MAIN_TABLE, linkLocal);
    var second := Rule(NARROW_PRIO, NARROW_TABLE, []);
    var last := Rule(WIDE_PRIO, WIDE_TABLE, []);
    WalkConcat([first, second] + Locals(priv), [last], fib, a);
    WalkConcat([first, second], Locals(priv), fib, a);
    WalkLocalsFrom(priv, 0, fib, a);
    assert Locals(priv)[0..] == Locals(priv) && priv[0..] == priv;
    assert [first, second][1..] == [second] && [second][1..] == [] && [last][1..] == [];
    assert Walk([second], fib, a) == TableHop(fib.TableOf(NARROW_TABLE), a);
    assert Walk([last], fib, a) == TableHop(fib.TableOf(WIDE_TABLE), a);
  }

  // ---- the flat table ------------------------------------------------------------------------

  /** One table: private networks lead to main, subnets to their link, a subnet wins a tie. */
  function FlatTable(priv: seq<Bits>, subs: Table): map<Bits, Hop> {
    (map p | p in priv :: Main) + (map n | n in subs :: Via(subs[n]))
  }

  function Flat(priv: seq<Bits>, subs: Table, a: Bits): Hop {
    match Lookup(FlatTable(priv, subs), a)
    case None => NoMatch
    case Some(h) => h
  }

  /** Every subnet sits in the table its base address selects. */
  ghost predicate Classified(fib: Fib, priv: seq<Bits>, width: nat) {
    && (forall n | n in fib.TableOf(NARROW_TABLE) :: |n| <= width && Narrow(priv, n, width))
    && (forall n | n in fib.TableOf(WIDE_TABLE) :: |n| <= width && !Narrow(priv, n, width))
  }

  /** All subnets registered with the client. */
  function Registered(fib: Fib): Table {
    fib.TableOf(NARROW_TABLE) + fib.TableOf(WIDE_TABLE)
  }

  /** A subnet that goes to the narrow table contains no private network as a proper part. */
  ghost predicate Safe(priv: seq<Bits>, n: Bits, width: nat)
    requires |n| <= width
  {
    Narrow(priv, n, width) ==> forall p | p in priv :: !(n < p)
  }

  /** What makes a safe subnet narrow makes every subnet inside it narrow. */
  lemma {:induction false} NarrowSpreads(priv: seq<Bits>, m: Bits, q: Bits, width: nat)
    requires m <= q && |q| <= width
    requires Narrow(priv, m, width) && Safe(priv, m, width)
    ensures Narrow(priv, q, width)
  {
    var p :| p in priv && p <= Base(m, width);
    Nested(p, m, Base(m, width));
    assert p <= m;
    assert p <= Base(q, width);
  }

  /** So a safe narrow match is at least as long as every private and every wide match. */
  lemma {:induction false} NarrowIsLongest(priv: seq<Bits>, m: Bits, q: Bits, a: Bits)
    requires m <= a && q <= a
    requires Narrow(priv, m, |a|) && Safe(priv, m, |a|)
    requires q in priv || !Narrow(priv, q, |a|)
    ensures |q| <= |m|
  {
    if |m| < |q| {
      Nested(m, q, a);
      if q !in priv {
        NarrowSpreads(priv, m, q, |a|);
      }
    }
  }

  /** A wide subnet is shorter than every private network that shares an address with it. */
  lemma {:induction false} WideIsShorter(priv: seq<Bits>, s: Bits, p: Bits, a: Bits)
    requires s <= a && p <= a && p in priv && !Narrow(priv, s, |a|)
    ensures |s| < |p|
  {
    Nested(p, s, a);
    var b := Base(s, |a|);
    assert p <= s ==> p <= b;
  }

  lemma {:induction false} FlatDecidedBy(priv: seq<Bits>, subs: Table, a: Bits, k: Bits)
    requires k in subs && k <= a
    requires forall q | q in subs && q <= a :: |q| <= |k|
    requires forall q | q in priv && q <= a :: |q| <= |k|
    ensures Flat(priv, subs, a) == Via(subs[k])
  {
    LookupIs(FlatTable(priv, subs), a, k);
  }

  lemma {:induction false} FlatIsMain(priv: seq<Bits>, subs: Table, a: Bits, p: Bits)
    requires p in priv && p <= a
    requires forall q | q in subs && q <= a :: |q| < |p|
    ensures Flat(priv, subs, a) == Main
  {
  }

  /** The matches at `a`: nothing private or wide is longer than a narrow match. */
  ghost predicate NarrowFirst(priv: seq<Bits>, narrow: Table, wide: Table, a: Bits) {
    forall m, q | m in narrow && m <= a && (q in wide || q in priv) && q <= a :: |q| <= |m|
  }

  lemma {:induction false} SafeIsNarrowFirst(priv: seq<Bits>, fib: Fib, a: Bits)
    requires Classified(fib, priv, |a|)
    requires forall n | n in Registered(fib) :: Safe(priv, n, |a|)
    ensures NarrowFirst(priv, fib.TableOf(NARROW_TABLE), fib.TableOf(WIDE_TABLE), a)
  {
    var narrow, wide := fib.TableOf(NARROW_TABLE), fib.TableOf(WIDE_TABLE);
    forall m, q | m in narrow && m <= a && (q in wide || q in priv) && q <= a
      ensures |q| <= |m|
    {
      assert m in Registered(fib);
      NarrowIsLongest(priv, m, q, a);
    }
  }

  /** One flat longest-prefix match is: the narrow table, the private networks, the wide table. */
  lemma {:induction false} FlatOfTiers(priv: seq<Bits>, narrow: Table, wide: Table, a: Bits)
    requires NarrowFirst(priv, narrow, wide, a) && forall n | n in narrow :: n !in wide
    requires forall n | n in wide :: |n| <= |a| && !Narrow(priv, n, |a|)
    ensures Flat(priv, narrow + wide, a)
         == OrElse(TableHop(narrow, a), if Private(priv, a) then Main else TableHop(wide, a))
  {
    var subs := narrow + wide;
    var m, w := Longest(narrow.Keys, a), Longest(wide.Keys, a);
    if m.Some? {
      FlatDecidedBy(priv, subs, a, m.value);
    } else if Private(priv, a) {
      var p :| p in priv && p <= a;
      forall q | q in subs && q <= a
        ensures |q| < |p|
      {
        WideIsShorter(priv, q, p, a);
      }
      FlatIsMain(priv, subs, a, p);
    } else if w.Some? {
      FlatDecidedBy(priv, subs, a, w.value);
    } else {
      assert Longest(FlatTable(priv, subs).Keys, a).None?;
    }
  }

  // ---- the built-in networks -------------------------------------------------------------------

  function Byte(b: nat): (s: Bits)
    requires b < 256
    ensures |s| == 8
  {
    [b / 128 % 2 == 1, b / 64 % 2 == 1, b / 32 % 2 == 1, b / 16 % 2 == 1,
     b / 8 % 2 == 1, b / 4 % 2 == 1, b / 2 % 2 == 1, b % 2 == 1]
  }

  /** 10.0.0.0/8, 172.16.0.0/12 and 192.168.0.0/16. */
  const V4_PRIVATE: seq<Bits> := [Byte(10), Byte(172) + Byte(16)[..4], Byte(192) + Byte(168)]
  /** fc00::/7 */
  const V6_PRIVATE: seq<Bits> := [Byte(0xfc)[..7]]
  /** 169.254.0.0/16 */
  const V4_LINK_LOCAL: Bits := Byte(169) + Byte(254)
  /** fe80::/10 */
  const V6_LINK_LOCAL: Bits := Byte(0xfe) + Byte(0x80)[..2]

  function BuiltinPrivate(f: Family): seq<Bits> {
    if f.V4? then V4_PRIVATE else V6_PRIVATE
  }

  function LinkLocal(f: Family): (r: Bits)
    ensures |r| <= Width(f)
  {
    if f.V4? then V4_LINK_LOCAL else V6_LINK_LOCAL
  }

  /** 10.0.0.0/7, 192.168.0.0/13 to /15, fc00::/6. */
  function Exceptions(f: Family): set<Bits> {
    var p := Byte(192) + Byte(168);
    if f.V4? then {Byte(10)[..7], p[..13], p[..14], p[..15]} else {Byte(0xfc)[..6]}
  }

  /** `q` is `n` followed by zero bits only. */
  predicate ZeroExtends(n: Bits, q: Bits) {
    n < q && forall i | |n| <= i < |q| :: !q[i]
  }

  lemma {:induction false} InBase(n: Bits, q: Bits, width: nat)
    requires |n| <= width && |q| <= width
    ensures q <= Base(n, width) <==> q <= n || ZeroExtends(n, q)
  {
  }

  /** The unsafe subnets are those that properly contain a private network and whose base address lies in
      one: a private network that contains the subnet or extends it by zero bits. */
  lemma {:induction false} UnsafeShape(priv: seq<Bits>, n: Bits, width: nat)
    requires |n| <= width
    requires forall p | p in priv :: |p| <= width
    ensures !Safe(priv, n, width)
       <==> (exists p | p in priv :: n < p) && (exists q | q in priv :: q <= n || ZeroExtends(n, q))
  {
    if !Safe(priv, n, width) {
      var q :| q in priv && q <= Base(n, width);
      InBase(n, q, width);
    }
    if q :| q in priv && (q <= n || ZeroExtends(n, q)) {
      InBase(n, q, width);
    }
  }

  lemma ZeroTail(n: Bits, q: Bits, last: nat)
    requires last < |q| && q[last] && forall i | last < i < |q| :: !q[i]
    ensures ZeroExtends(n, q) <==> last < |n| < |q| && n == q[..|n|]
  {
  }

  lemma {:induction false} V4Shape()
    ensures forall p | p in V4_PRIVATE :: |p| <= Width(V4) && !(V4_LINK_LOCAL <= p)
    ensures forall p, q | p in V4_PRIVATE && q in V4_PRIVATE :: !(p < q)
  {
    var a, b, c := Byte(10), Byte(172) + Byte(16)[..4], Byte(192) + Byte(168);
    assert !a[0] && b[0] && c[0] && !b[1] && c[1];
    assert forall p | p in V4_PRIVATE :: p == a || p == b || p == c;
    assert V4_LINK_LOCAL[2] && !c[2] && V4_LINK_LOCAL[0];
  }

  lemma {:induction false} BuiltinShape(f: Family)
    ensures forall p | p in BuiltinPrivate(f) :: |p| <= Width(f) && !(LinkLocal(f) <= p)
    ensures forall p, q | p in BuiltinPrivate(f) && q in BuiltinPrivate(f) :: !(p < q)
  {
    if f.V4? {
      V4Shape();
    } else {
      assert forall p | p in V6_PRIVATE :: p == Byte(0xfc)[..7];
    }
  }

  /** The exceptions among the proper prefixes of one network: those that reach past its last set bit. */
  lemma {:induction false} ZeroTailPrefixes(n: Bits, q: Bits, last: nat)
    requires last < |q| && q[last] && forall i | last < i < |q| :: !q[i]
    ensures ZeroExtends(n, q) <==> exists k | last < k < |q| :: n == q[..k]
  {
    ZeroTail(n, q, last);
  }

  lemma {:induction false} V4ZeroTails(n: Bits)
    ensures (exists q | q in V4_PRIVATE :: ZeroExtends(n, q)) <==> n in Exceptions(V4)
  {
    var a, b, c := V4_PRIVATE[0], V4_PRIVATE[1], V4_PRIVATE[2];
    ZeroTailPrefixes(n, a, 6);
    ZeroTailPrefixes(n, b, 11);
    ZeroTailPrefixes(n, c, 12);
    assert n in Exceptions(V4) <==> n == a[..7] || n == c[..13] || n == c[..14] || n == c[..15];
  }

  lemma {:induction false} V6ZeroTails(n: Bits)
    ensures (exists q | q in V6_PRIVATE :: ZeroExtends(n, q)) <==> n in Exceptions(V6)
  {
    var d := V6_PRIVATE[0];
    ZeroTailPrefixes(n, d, 5);
    assert d[..6] == Byte(0xfc)[..6];
  }

  /** Over all canonical prefixes, exactly the listed ones break the flat reading of the built-in lists. */
  lemma {:induction false} BuiltinExceptions(f: Family, n: Bits)
    requires |n| <= Width(f)
    ensures !Safe(BuiltinPrivate(f), n, Width(f)) <==> n in Exceptions(f)
  {
    BuiltinShape(f);
    UnsafeShape(BuiltinPrivate(f), n, Width(f));
    V4ZeroTails(n);
    V6ZeroTails(n);
  }

  lemma NibbleSum(u: nat)
    requires u < 16
    ensures u == 8 * (u / 8 % 2) + 4 * (u / 4 % 2) + 2 * (u / 2 % 2) + u % 2
    ensures u / 2 == 4 * (u / 8 % 2) + 2 * (u / 4 % 2) + u / 2 % 2
    ensures u / 4 == 2 * (u / 8 % 2) + u / 4 % 2
  {
  }

  lemma {:induction false} NibbleBits(u: nat, v: nat)
    requires u < 16 && v < 16
    ensures u == v <==> u / 8 % 2 == v / 8 % 2 && u / 4 % 2 == v / 4 % 2 && u / 2 % 2 == v / 2 % 2 && u % 2 == v % 2
    ensures u / 2 == v / 2 <==> u / 8 % 2 == v / 8 % 2 && u / 4 % 2 == v / 4 % 2 && u / 2 % 2 == v / 2 % 2
    ensures u / 4 == v / 4 <==> u / 8 % 2 == v / 8 % 2 && u / 4 % 2 == v / 4 % 2
  {
    NibbleSum(u);
    NibbleSum(v);
  }

  lemma UpperHalf(x: nat)
    ensures x / 128 == x / 16 / 8 && x / 64 == x / 16 / 4 && x / 32 == x / 16 / 2
  {
  }

  lemma DivEight(t: nat, v: nat)
    ensures (8 * t + v) / 8 == t + v / 8
  {
  }

  lemma DivFour(t: nat, v: nat)
    ensures (4 * t + v) / 4 == t + v / 4
  {
  }

  lemma DivTwo(t: nat, v: nat)
    ensures (2 * t + v) / 2 == t + v / 2 && (2 * t + v) % 2 == v % 2
  {
  }

  lemma {:induction false} LowerHalf(u: nat, v: nat)
    ensures (16 * u + v) / 8 % 2 == v / 8 % 2 && (16 * u + v) / 4 % 2 == v / 4 % 2
    ensures (16 * u + v) / 2 % 2 == v / 2 % 2 && (16 * u + v) % 2 == v % 2
  {
    DivEight(2 * u, v);
    DivFour(4 * u, v);
    DivTwo(8 * u, v);
    DivTwo(u, v / 8);
    DivTwo(2 * u, v / 4);
    DivTwo(4 * u, v / 2);
  }

  /** An octet is its upper and its lower half. */
  lemma {:induction false} ByteHalves(x: nat)
    requires x < 256
    ensures var b, u, v := Byte(x), x / 16, x % 16;
            && b[0] == (u / 8 % 2 == 1) && b[1] == (u / 4 % 2 == 1) && b[2] == (u / 2 % 2 == 1) && b[3] == (u % 2 == 1)
            && b[4] == (v / 8 % 2 == 1) && b[5] == (v / 4 % 2 == 1) && b[6] == (v / 2 % 2 == 1) && b[7] == (v % 2 == 1)
  {
    UpperHalf(x);
    LowerHalf(x / 16, x % 16);
  }

  lemma {:induction false} ByteInjective(x: nat, y: nat)
    requires x < 256 && y < 256 && Byte(x) == Byte(y)
    ensures x == y
  {
    OctetPrefix(x, y);
    ByteHalves(x);
    ByteHalves(y);
    assert Byte(x)[..4] == Byte(y)[..4];
    NibbleBits(x % 16, y % 16);
  }

  /** The leading bits of an octet say which block of a power of two it is in. */
  lemma {:induction false} OctetPrefix(x: nat, y: nat)
    requires x < 256 && y < 256
    ensures Byte(x)[..7] == Byte(y)[..7] <==> x / 16 == y / 16 && x % 16 / 2 == y % 16 / 2
    ensures Byte(x)[..4] == Byte(y)[..4] <==> x / 16 == y / 16
    ensures Byte(x)[..2] == Byte(y)[..2] <==> x / 16 / 4 == y / 16 / 4
  {
    ByteHalves(x);
    ByteHalves(y);
    NibbleBits(x / 16, y / 16);
    NibbleBits(x % 16, y % 16);
    SamePrefix(Byte(x), Byte(y));
  }

  lemma {:induction false} SamePrefix(b: Bits, c: Bits)
    requires |b| == 8 && |c| == 8
    ensures b[..2] == c[..2] <==> b[0] == c[0] && b[1] == c[1]
    ensures b[..4] == c[..4] <==> b[0] == c[0] && b[1] == c[1] && b[2] == c[2] && b[3] == c[3]
    ensures b[..7] == c[..7]
       <==> && b[0] == c[0] && b[1] == c[1] && b[2] == c[2] && b[3] == c[3]
            && b[4] == c[4] && b[5] == c[5] && b[6] == c[6]
  {
    assert b[..2] == c[..2] ==> b[..2][0] == c[..2][0] && b[..2][1] == c[..2][1];
    assert b[..4] == c[..4] ==> forall i | 0 <= i < 4 :: b[i] == b[..4][i] == c[..4][i];
    assert b[..7] == c[..7] ==> forall i | 0 <= i < 7 :: b[i] == b[..7][i] == c[..7][i];
  }

  lemma {:induction false} TwoOctets(x: nat, y: nat, u: nat, v: nat, k: nat, a: Bits)
    requires x < 256 && y < 256 && u < 256 && v < 256 && k <= 8 && Byte(x) + Byte(y) <= a
    ensures Byte(u) + Byte(v)[..k] <= a <==> x == u && Byte(y)[..k] == Byte(v)[..k]
  {
    assert a[..8] == Byte(x) && a[8..16] == Byte(y);
    var p := Byte(u) + Byte(v)[..k];
    assert p <= a <==> a[..8 + k] == p;
    assert a[..8 + k] == a[..8] + a[8..16][..k];
    assert p[..8] == Byte(u) && p[8..] == Byte(v)[..k];
    if x != u && Byte(x) == Byte(u) {
      ByteInjective(x, u);
    }
  }

  /** The built-in IPv4 lists by octets, as section 3 of RFC 1918 and section 3.3 of RFC 3927 give them. */
  lemma {:induction false} BuiltinV4(x: nat, y: nat, a: Bits)
    requires x < 256 && y < 256 && |a| == Width(V4) && Byte(x) + Byte(y) <= a
    ensures Private(BuiltinPrivate(V4), a) <==> x == 10 || (x == 172 && 16 <= y < 32) || (x == 192 && y == 168)
    ensures LinkLocal(V4) <= a <==> x == 169 && y == 254
  {
    assert Byte(10) + Byte(0)[..0] == Byte(10) && Byte(192) + Byte(168)[..8] == Byte(192) + Byte(168);
    assert Byte(169) + Byte(254)[..8] == Byte(169) + Byte(254);
    TwoOctets(x, y, 10, 0, 0, a);
    TwoOctets(x, y, 172, 16, 4, a);
    TwoOctets(x, y, 192, 168, 8, a);
    TwoOctets(x, y, 169, 254, 8, a);
    OctetPrefix(y, 16);
    assert Byte(y)[..8] == Byte(y) && Byte(168)[..8] == Byte(168) && Byte(254)[..8] == Byte(254);
    if Byte(y) == Byte(168) {
      ByteInjective(y, 168);
    }
    if Byte(y) == Byte(254) {
      ByteInjective(y, 254);
    }
    var l := BuiltinPrivate(V4);
    assert forall p | p in l :: p == l[0] || p == l[1] || p == l[2];
    assert l[0] in l && l[1] in l && l[2] in l;
  }

  /** The built-in IPv6 lists by octets, as section 3.1 of RFC 4193 and section 2.5.6 of RFC 4291 give them. */
  lemma {:induction false} BuiltinV6(x: nat, y: nat, a: Bits)
    requires x < 256 && y < 256 && |a| == Width(V6) && Byte(x) + Byte(y) <= a
    ensures Private(BuiltinPrivate(V6), a) <==> x == 0xfc || x == 0xfd
    ensures LinkLocal(V6) <= a <==> x == 0xfe && 0x80 <= y < 0xc0
  {
    TwoOctets(x, y, 0xfe, 0x80, 2, a);
    OctetPrefix(x, 0xfc);
    OctetPrefix(y, 0x80);
    assert a[..8] == Byte(x) && a[..7] == Byte(x)[..7];
    var l := BuiltinPrivate(V6);
    assert forall p | p in l :: p == l[0];
    assert l[0] in l && |l[0]| == 7;
    assert l[0] <= a <==> a[..7] == l[0];
  }
}
