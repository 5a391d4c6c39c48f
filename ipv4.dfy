/** IPv4 networks as `ipaddress.ip_network(text, strict=False)` builds them from text, and as
    `str()` prints them: a 32-bit network address with its host bits cleared, and a prefix
    length. */
module Ipv4 {
  import opened Wrappers
  import opened Text

  /** The number of IPv4 addresses, 2 to the 32nd. */
  const AddressCount: nat := 0x1_0000_0000

  function Pow2(k: nat): (r: nat)
    ensures r >= 1
  {
    if k == 0 then 1 else 2 * Pow2(k - 1)
  }

  lemma {:induction false} Pow2Monotone(i: nat, j: nat)
    requires i < j
    ensures Pow2(i) < Pow2(j)
    decreases j
  {
    if i < j - 1 {
      Pow2Monotone(i, j - 1);
    }
  }

  lemma Pow2Of32()
    ensures Pow2(32) == AddressCount
  {
    assert Pow2(4) == 16;
    assert Pow2(8) == 256 by { assert Pow2(6) == 64; }
    assert Pow2(12) == 4096 by { assert Pow2(10) == 1024; }
    assert Pow2(16) == 65536 by { assert Pow2(14) == 16384; }
    assert Pow2(20) == 1048576 by { assert Pow2(18) == 262144; }
    assert Pow2(24) == 16777216 by { assert Pow2(22) == 4194304; }
    assert Pow2(28) == 268435456 by { assert Pow2(26) == 67108864; }
    assert Pow2(30) == 1073741824;
  }

  // ---------------------------------------------------------------- low bits

  /** `a` with its `k` low bits cleared: `a & ~(2**k - 1)`. */
  function ClearLow(a: nat, k: nat): nat
    decreases k
  {
    if k == 0 then a else 2 * ClearLow(a / 2, k - 1)
  }

  /** The `k` low bits of `a` are zero. */
  predicate Aligned(a: nat, k: nat)
    decreases k
  {
    k == 0 || (a % 2 == 0 && Aligned(a / 2, k - 1))
  }

  /** Clearing the low bits moves down to the start of the aligned block holding `a`. */
  lemma {:induction false} ClearLowBounds(a: nat, k: nat)
    ensures ClearLow(a, k) <= a < ClearLow(a, k) + Pow2(k)
    ensures Aligned(ClearLow(a, k), k)
    decreases k
  {
    if k > 0 {
      ClearLowBounds(a / 2, k - 1);
      var c := ClearLow(a / 2, k - 1);
      assert (2 * c) / 2 == c && (2 * c) % 2 == 0;
    }
  }

  /** An aligned address is its own block start. */
  lemma {:induction false} ClearLowAligned(a: nat, k: nat)
    requires Aligned(a, k)
    ensures ClearLow(a, k) == a
    decreases k
  {
    if k > 0 {
      ClearLowAligned(a / 2, k - 1);
    }
  }

  // ---------------------------------------------------------------- networks

  datatype Net = Net(addr: nat, len: nat)

  /** The number of addresses in a network with this prefix length. */
  function Size(len: nat): (r: nat)
    requires len <= 32
    ensures 1 <= r <= AddressCount
  {
    Pow2Of32();
    assert Pow2(32 - len) <= Pow2(32) by {
      if len > 0 { Pow2Monotone(32 - len, 32); }
    }
    Pow2(32 - len)
  }

  /** A network `ipaddress` can hold: the prefix is at most 32 bits and no host bit is set. */
  predicate Valid(n: Net) {
    n.len <= 32 && n.addr < AddressCount && Aligned(n.addr, 32 - n.len)
  }

  function Broadcast(n: Net): nat
    requires n.len <= 32
  {
    n.addr + Size(n.len) - 1
  }

  /** The network `a/len` with its host bits cleared, as `strict=False` makes it. */
  function Masked(a: nat, len: nat): (r: Net)
    requires a < AddressCount && len <= 32
    ensures Valid(r) && r.len == len
    ensures r.addr <= a <= Broadcast(r)
  {
    ClearLowBounds(a, 32 - len);
    Net(ClearLow(a, 32 - len), len)
  }

  /** A valid network is unchanged by masking. */
  lemma MaskedValid(n: Net)
    requires Valid(n)
    ensures Masked(n.addr, n.len) == n
  {
    ClearLowAligned(n.addr, 32 - n.len);
  }

  predicate Contains(n: Net, x: int)
    requires n.len <= 32
  {
    n.addr <= x <= Broadcast(n)
  }

  /** `a.subnet_of(b)`: `b` starts no later and ends no earlier than `a`. */
  predicate SubnetOf(a: Net, b: Net)
    requires a.len <= 32 && b.len <= 32
  {
    b.addr <= a.addr && Broadcast(a) <= Broadcast(b)
  }

  /** `subnet_of` is address-set inclusion. */
  lemma SubnetOfIsInclusion(a: Net, b: Net)
    requires a.len <= 32 && b.len <= 32
    ensures SubnetOf(a, b) <==> forall x :: Contains(a, x) ==> Contains(b, x)
  {
    if forall x :: Contains(a, x) ==> Contains(b, x) {
      assert Contains(a, a.addr) && Contains(a, Broadcast(a));
    }
  }

  /** Two valid networks that contain each other are the same network. */
  lemma SubnetOfAntisymmetric(a: Net, b: Net)
    requires Valid(a) && Valid(b) && SubnetOf(a, b) && SubnetOf(b, a)
    ensures a == b
  {
    if a.len < b.len {
      Pow2Monotone(32 - b.len, 32 - a.len);
    } else if b.len < a.len {
      Pow2Monotone(32 - a.len, 32 - b.len);
    }
  }

  /** A proper subnet of a network has a strictly longer prefix. */
  lemma ProperSubnetIsLonger(a: Net, b: Net)
    requires Valid(a) && Valid(b) && SubnetOf(a, b) && a != b
    ensures b.len < a.len
  {
    if a.len < b.len {
      Pow2Monotone(32 - b.len, 32 - a.len);
    }
  }

  // ---------------------------------------------------------------- text

  /** `str()` of an address: the four octets in decimal, joined by dots. */
  function AddressToString(a: nat): string
    requires a < AddressCount
  {
    NatToString(a / 0x100_0000) + "." + NatToString(a / 0x1_0000 % 0x100) + "." +
    NatToString(a / 0x100 % 0x100) + "." + NatToString(a % 0x100)
  }

  /** `str()` of a network: `address/prefix`. */
  function NetToString(n: Net): string
    requires Valid(n)
  {
    AddressToString(n.addr) + "/" + NatToString(n.len)
  }

  /** One octet: one to three ASCII digits, no leading zero, at most 255. */
  function ParseOctet(s: string): (r: Option<nat>)
    ensures r.Some? ==> r.value < 256
  {
    if s == [] || !AllDigits(s) || |s| > 3 || (s != "0" && s[0] == '0') then None
    else
      var v := DecimalValue(s);
      if v > 255 then None else Some(v)
  }

  /** An address: exactly four octets separated by dots. */
  function ParseAddress(s: string): (r: Option<nat>)
    ensures r.Some? ==> r.value < AddressCount
  {
    ParseOctets(SplitOn(s, '.'))
  }

  /** The address with these four octets, most significant first. */
  function Combine(a: nat, b: nat, c: nat, d: nat): (r: nat)
    requires a < 256 && b < 256 && c < 256 && d < 256
    ensures r < AddressCount
  {
    ((a * 256 + b) * 256 + c) * 256 + d
  }

  /** The value of four octets, most significant first. */
  function ParseOctets(parts: seq<string>): (r: Option<nat>)
    ensures r.Some? ==> r.value < AddressCount
  {
    if |parts| != 4 then None
    else
      match (ParseOctet(parts[0]), ParseOctet(parts[1]), ParseOctet(parts[2]), ParseOctet(parts[3]))
      case (Some(a), Some(b), Some(c), Some(d)) => Some(Combine(a, b, c, d))
      case _ => None
  }

  /** The netmask with `len` leading one bits. */
  function NetmaskOf(len: nat): nat
    requires len <= 32
  {
    AddressCount - Size(len)
  }

  /** The prefix length of a netmask, searching lengths from `from` up to 32. */
  function NetmaskLength(m: nat, from: nat): (r: Option<nat>)
    requires from <= 33
    ensures r.Some? ==> from <= r.value <= 32 && NetmaskOf(r.value) == m
    ensures r.None? ==> forall l :: from <= l <= 32 ==> NetmaskOf(l) != m
    decreases 33 - from
  {
    if from > 32 then None
    else if NetmaskOf(from) == m then Some(from)
    else NetmaskLength(m, from + 1)
  }

  /** A prefix given in dotted form: a netmask, or failing that a host mask (its complement). */
  function MaskLength(s: string): (r: Option<nat>)
    ensures r.Some? ==> r.value <= 32
  {
    match ParseAddress(s)
    case None => None
    case Some(m) =>
      match NetmaskLength(m, 0)
      case Some(l) => Some(l)
      case None => NetmaskLength(AddressCount - 1 - m, 0)
  }

  /** The text after `/`: a decimal prefix length up to 32 (leading zeros allowed), or a mask. */
  function ParseLength(s: string): (r: Option<nat>)
    ensures r.Some? ==> r.value <= 32
  {
    if s != [] && AllDigits(s) && DecimalValue(s) <= 32 then Some(DecimalValue(s)) else MaskLength(s)
  }

  /** `ip_network(s, strict=False)` for IPv4 text: an address, optionally `/` and a prefix
      (32 when absent); more than one `/` is refused; host bits are cleared. */
  function ParseNet(s: string): (r: Option<Net>)
    ensures r.Some? ==> Valid(r.value)
  {
    var parts := SplitOn(s, '/');
    if |parts| > 2 then None
    else
      match ParseAddress(parts[0])
      case None => None
      case Some(a) =>
        match (if |parts| == 1 then Some(32) else ParseLength(parts[1]))
        case None => None
        case Some(len) => Some(Masked(a, len))
  }

  // ---------------------------------------------------------------- round trip

  lemma ParseOctetOfString(v: nat)
    requires v < 256
    ensures ParseOctet(NatToString(v)) == Some(v)
  {
    DecimalOfNatToString(v);
    NatToStringNoLeadingZero(v);
    NatToStringShort(v);
  }

  lemma DigitsHaveNo(s: string, c: char)
    requires AllDigits(s) && !IsDigit(c)
    ensures c !in s
  {
  }

  lemma OctetsRecombine(a: nat)
    requires a < AddressCount
    ensures a / 0x100_0000 < 256
    ensures Combine(a / 0x100_0000, a / 0x1_0000 % 0x100, a / 0x100 % 0x100, a % 0x100) == a
  {
    var q1, d := a / 0x100, a % 0x100;
    var q2, c := q1 / 0x100, q1 % 0x100;
    var q3, b := q2 / 0x100, q2 % 0x100;
    assert a == q1 * 0x100 + d;
    assert q1 == q2 * 0x100 + c;
    assert q2 == q3 * 0x100 + b;
    assert a == q2 * 0x1_0000 + (c * 0x100 + d);
    assert a / 0x1_0000 == q2;
    assert a == q3 * 0x100_0000 + ((b * 0x100 + c) * 0x100 + d);
    assert a / 0x100_0000 == q3;
  }

  lemma SplitTwo(x: string, s0: string, s1: string, c: char)
    requires c !in s0 && c !in s1
    requires x == s0 + [c] + s1
    ensures SplitOn(x, c) == [s0, s1]
  {
    SplitOnNone(s1, c);
    SplitOnCons(s0, s1, c);
  }

  lemma SplitThree(x: string, s0: string, s1: string, s2: string, c: char)
    requires c !in s0 && c !in s1 && c !in s2
    requires x == s0 + [c] + (s1 + [c] + s2)
    ensures SplitOn(x, c) == [s0, s1, s2]
  {
    SplitTwo(s1 + [c] + s2, s1, s2, c);
    SplitOnCons(s0, s1 + [c] + s2, c);
  }

  lemma SplitFour(x: string, s0: string, s1: string, s2: string, s3: string, c: char)
    requires c !in s0 && c !in s1 && c !in s2 && c !in s3
    requires x == s0 + [c] + (s1 + [c] + (s2 + [c] + s3))
    ensures SplitOn(x, c) == [s0, s1, s2, s3]
  {
    SplitThree(s1 + [c] + (s2 + [c] + s3), s1, s2, s3, c);
    SplitOnCons(s0, s1 + [c] + (s2 + [c] + s3), c);
  }

  lemma ParseOctetsOf(p0: string, p1: string, p2: string, p3: string, o0: nat, o1: nat, o2: nat, o3: nat)
    requires ParseOctet(p0) == Some(o0) && ParseOctet(p1) == Some(o1)
    requires ParseOctet(p2) == Some(o2) && ParseOctet(p3) == Some(o3)
    ensures o0 < 256 && o1 < 256 && o2 < 256 && o3 < 256
    ensures ParseOctets([p0, p1, p2, p3]) == Some(Combine(o0, o1, o2, o3))
  {
    var ps := [p0, p1, p2, p3];
    assert ps[0] == p0 && ps[1] == p1 && ps[2] == p2 && ps[3] == p3;
  }

  lemma ParseAddressOfString(a: nat)
    requires a < AddressCount
    ensures ParseAddress(AddressToString(a)) == Some(a)
  {
    var o0, o1, o2, o3 := a / 0x100_0000, a / 0x1_0000 % 0x100, a / 0x100 % 0x100, a % 0x100;
    var s0, s1, s2, s3 := NatToString(o0), NatToString(o1), NatToString(o2), NatToString(o3);
    DigitsHaveNo(s0, '.');
    DigitsHaveNo(s1, '.');
    DigitsHaveNo(s2, '.');
    DigitsHaveNo(s3, '.');
    assert AddressToString(a) == s0 + ['.'] + (s1 + ['.'] + (s2 + ['.'] + s3));
    SplitFour(AddressToString(a), s0, s1, s2, s3, '.');
    ParseOctetOfString(o0);
    ParseOctetOfString(o1);
    ParseOctetOfString(o2);
    ParseOctetOfString(o3);
    ParseOctetsOf(s0, s1, s2, s3, o0, o1, o2, o3);
    OctetsRecombine(a);
  }

  lemma ParseLengthOfString(l: nat)
    requires l <= 32
    ensures ParseLength(NatToString(l)) == Some(l)
  {
    DecimalOfNatToString(l);
  }

  /** Printing a network and parsing the text back gives the same network. */
  lemma ParseNetOfString(n: Net)
    requires Valid(n)
    ensures ParseNet(NetToString(n)) == Some(n)
  {
    var addr := AddressToString(n.addr);
    var len := NatToString(n.len);
    assert '/' !in addr by {
      var o0, o1, o2, o3 := n.addr / 0x100_0000, n.addr / 0x1_0000 % 0x100, n.addr / 0x100 % 0x100, n.addr % 0x100;
      DigitsHaveNo(NatToString(o0), '/');
      DigitsHaveNo(NatToString(o1), '/');
      DigitsHaveNo(NatToString(o2), '/');
      DigitsHaveNo(NatToString(o3), '/');
    }
    DigitsHaveNo(len, '/');
    assert NetToString(n) == addr + ['/'] + len;
    SplitTwo(NetToString(n), addr, len, '/');
    ParseAddressOfString(n.addr);
    ParseLengthOfString(n.len);
    MaskedValid(n);
  }

  /** Different networks print differently, so the printed form can key a dictionary. */
  lemma NetToStringInjective(a: Net, b: Net)
    requires Valid(a) && Valid(b) && NetToString(a) == NetToString(b)
    ensures a == b
  {
    ParseNetOfString(a);
    ParseNetOfString(b);
  }
}
