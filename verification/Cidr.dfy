/** Addresses and prefixes as bit strings. A network contains an address exactly when its bits are
    a prefix of the address bits, so `p <= a` (sequence prefix) is containment throughout. */
module Cidr {
  import opened Options

  datatype Family = V4 | V6

  type Bits = seq<bool>

  function Width(f: Family): nat {
    if f.V4? then 32 else 128
  }

  function Zeros(n: nat): (z: Bits)
    ensures |z| == n
  {
    seq(n, _ => false)
  }

  datatype RawIP = IPAddr(family: Family, bits: Bits)

  /** A parsed address; an IPv4-mapped IPv6 address is the IPv4 one, as net.IP.To4 and Equal treat it. */
  type IP = a: RawIP | |a.bits| == Width(a.family) witness IPAddr(V4, Zeros(32))

  datatype RawSubnet = Net4or6(family: Family, bits: Bits)

  /** A network in canonical form: the bits under the mask and nothing else. */
  type Subnet = s: RawSubnet | |s.bits| <= Width(s.family) witness Net4or6(V4, [])

  /** The base address `n.IP` of a canonical network. */
  function Base(n: Bits, width: nat): (b: Bits)
    requires |n| <= width
    ensures |b| == width && n <= b
  {
    n + Zeros(width - |n|)
  }

  /** CIDR blocks that share an address are nested. */
  lemma {:induction false} Nested(p: Bits, q: Bits, a: Bits)
    requires p <= a && q <= a
    ensures |p| <= |q| ==> p <= q
    ensures |q| <= |p| ==> q <= p
  {
  }

  /** Longest match among the prefixes of `a` that have at most `n` bits. */
  function LongestUpTo(keys: set<Bits>, a: Bits, n: nat): (r: Option<Bits>)
    requires n <= |a|
    ensures r.Some? ==> r.value in keys && r.value <= a && |r.value| <= n
    ensures forall q | q in keys && q <= a && |q| <= n :: r.Some? && |q| <= |r.value|
  {
    if a[..n] in keys then
      Some(a[..n])
    else if n == 0 then
      assert forall q | q in keys && q <= a && |q| <= n :: q == a[..0];
      None
    else
      assert forall q | q in keys && q <= a && |q| <= n :: |q| == n ==> q == a[..n];
      LongestUpTo(keys, a, n - 1)
  }

  function Longest(keys: set<Bits>, a: Bits): (r: Option<Bits>)
    ensures r.Some? ==> r.value in keys && r.value <= a
    ensures forall q | q in keys && q <= a :: r.Some? && |q| <= |r.value|
  {
    LongestUpTo(keys, a, |a|)
  }

  /** Longest-prefix-match lookup in one table. */
  function Lookup<T>(table: map<Bits, T>, a: Bits): (r: Option<T>) {
    match Longest(table.Keys, a)
    case None => None
    case Some(k) => Some(table[k])
  }

  /** A key that matches and is at least as long as every other match decides the lookup. */
  lemma {:induction false} LookupIs<T>(table: map<Bits, T>, a: Bits, k: Bits)
    requires k in table && k <= a
    requires forall q | q in table && q <= a :: |q| <= |k|
    ensures Lookup(table, a) == Some(table[k])
  {
    var m := Longest(table.Keys, a).value;
    assert m == a[..|m|] && k == a[..|k|];
  }
}
