/** Names of the Foo-over-UDP tunnel links. */
module LinkNames {
  import opened Cidr

  const FOU4_PREFIX := "fou4_"
  const FOU6_PREFIX := "fou6_"
  /** IFNAMSIZ leaves 15 characters for a name. */
  const MAX_NAME := 15

  type Bits32 = b: Bits | |b| == 32 witness Zeros(32)
  /** The first four bytes of the SHA-1 digest of an address. */
  type Hash = Bits -> Bits32

  const HEX := "0123456789abcdef"

  /** The number four bits stand for. */
  function Nibble(b: Bits): (v: nat)
    requires |b| == 4
    ensures v < 16
  {
    (if b[0] then 8 else 0) + (if b[1] then 4 else 0) + (if b[2] then 2 else 0) + (if b[3] then 1 else 0)
  }

  function FromNibble(v: nat): Bits {
    [v / 8 % 2 == 1, v / 4 % 2 == 1, v / 2 % 2 == 1, v % 2 == 1]
  }

  function Digit(b: Bits): (c: char)
    requires |b| == 4
  {
    HEX[Nibble(b)]
  }

  function Value(c: char): (v: nat)
    ensures v < 16
  {
    if '0' <= c <= '9' then c as int - '0' as int
    else if 'a' <= c <= 'f' then c as int - 'a' as int + 10
    else 0
  }

  function Undigit(c: char): Bits {
    FromNibble(Value(c))
  }

  lemma NibbleRoundTrip(b: Bits)
    requires |b| == 4
    ensures FromNibble(Nibble(b)) == b
  {
  }

  lemma ValueOfDigit(v: nat)
    requires v < 16
    ensures Value(HEX[v]) == v
  {
  }

  lemma {:induction false} DigitRoundTrip(b: Bits)
    requires |b| == 4
    ensures Undigit(Digit(b)) == b
  {
    ValueOfDigit(Nibble(b));
    NibbleRoundTrip(b);
  }

  function Hex(b: Bits): (s: string)
    requires |b| % 4 == 0
    ensures |s| == |b| / 4
  {
    if b == [] then [] else [Digit(b[..4])] + Hex(b[4..])
  }

  function Unhex(s: string): Bits {
    if s == [] then [] else Undigit(s[0]) + Unhex(s[1..])
  }

  lemma {:induction false} HexRoundTrip(b: Bits)
    requires |b| % 4 == 0
    ensures Unhex(Hex(b)) == b
  {
    if b != [] {
      DigitRoundTrip(b[..4]);
      HexRoundTrip(b[4..]);
      assert Hex(b)[1..] == Hex(b[4..]);
    }
  }

  function FouName(h: Hash, a: IP): (s: string)
    ensures |s| == 13 <= MAX_NAME
  {
    if a.family.V4? then FOU4_PREFIX + Hex(a.bits) else FOU6_PREFIX + Hex(h(a.bits))
  }

  /** Two addresses share a link name exactly when they are equal, or are IPv6 and their digests agree. */
  lemma {:induction false} FouNameInjective(h: Hash, a: IP, b: IP)
    ensures FouName(h, a) == FouName(h, b)
       <==> a == b || (a.family.V6? && b.family.V6? && h(a.bits) == h(b.bits))
  {
    var x, y := FouName(h, a), FouName(h, b);
    if x == y {
      assert x[3] == y[3];
      assert a.family == b.family;
      assert x[5..] == y[5..];
      if a.family.V4? {
        assert x[5..] == Hex(a.bits) && y[5..] == Hex(b.bits);
        HexRoundTrip(a.bits);
        HexRoundTrip(b.bits);
      } else {
        assert x[5..] == Hex(h(a.bits)) && y[5..] == Hex(h(b.bits));
        HexRoundTrip(h(a.bits));
        HexRoundTrip(h(b.bits));
      }
    }
  }

  /** No two addresses of the set share a digest. */
  ghost predicate NoCollision(h: Hash, used: set<IP>) {
    forall a, b | a in used && b in used && a.family.V6? && b.family.V6? && h(a.bits) == h(b.bits) :: a == b
  }

  function IpipName(f: Family): string {
    if f.V4? then "egress_ipip4" else "egress_ipip6"
  }

  /** The devices the program manages besides tunnel links. */
  const FIXED_NAMES: set<string> :=
    {"egress_ipip4", "egress_ipip6", "tunl0", "ip6tnl0", "egress_tunl", "egress_ip6tnl"}

  /** The dummy links that mark a finished initialisation. */
  const FOU_DUMMY := "fou-dummy"
  const EGRESS_DUMMY := "egress-dummy"

  lemma {:induction false} FouNameNotFixed(h: Hash, a: IP)
    ensures FouName(h, a) !in FIXED_NAMES && FouName(h, a) != FOU_DUMMY && FouName(h, a) != EGRESS_DUMMY
  {
    var s := FouName(h, a);
    assert s[0] == 'f' && s[4] == '_';
    assert forall x | x in FIXED_NAMES :: x[0] != 'f';
    assert FOU_DUMMY[3] == '-' && s[3] != '-' && EGRESS_DUMMY[0] == 'e';
  }

  /** A tunnel name starts with the program's prefix and goes on with the address, or its digest, in hexadecimal. */
  lemma {:induction false} FouNameMeaning(h: Hash, a: IP)
    ensures var s := FouName(h, a);
            && s[..5] == (if a.family.V4? then "fou4_" else "fou6_")
            && Unhex(s[5..]) == (if a.family.V4? then a.bits else h(a.bits))
            && |a.bits| == if a.family.V4? then 32 else 128
  {
    var s, x := FouName(h, a), if a.family.V4? then a.bits else h(a.bits);
    HexRoundTrip(x);
    assert s[5..] == Hex(x);
  }
}
