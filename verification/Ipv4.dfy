/** IPv4 addresses as 32-bit words, subnets, and the address arithmetic of the agent. */
module Ipv4 {
  import opened Wrappers

  const WORD: nat := 0x1_0000_0000

  type Ip = n: nat | n < 0x1_0000_0000

  type Prefix = n: nat | n <= 32

  datatype Subnet = Subnet(network: Ip, prefix: Prefix)

  /** What net.ParseCIDR makes of a text: an IPv4 address with its prefix, or anything else. */
  datatype CidrText = V4(ip: Ip, prefix: Prefix) | NotV4

  function Pow2(n: nat): (p: nat)
    ensures p >= 1
  {
    if n == 0 then 1 else 2 * Pow2(n - 1)
  }

  /** How many addresses a prefix leaves to one subnet. */
  function BlockSize(prefix: Prefix): (size: nat)
    ensures size >= 1
  {
    Pow2(32 - prefix)
  }

  /** Two addresses are in one subnet when they agree on their leading prefix bits. */
  predicate Contains(n: Subnet, ip: Ip) {
    ip / BlockSize(n.prefix) == n.network / BlockSize(n.prefix)
  }

  // ---------------------------------------------------------------------------
  // 32-bit word arithmetic
  // ---------------------------------------------------------------------------

  function ShiftLeft(x: Ip, n: nat): Ip {
    x * Pow2(n) % WORD
  }

  function WrapSub(x: Ip, y: Ip): Ip {
    (x as int - y) % WORD
  }

  /** Bitwise or, bit by bit. */
  function Or(x: nat, y: nat): nat {
    if x == 0 && y == 0 then 0
    else 2 * Or(x / 2, y / 2) + if x % 2 == 1 || y % 2 == 1 then 1 else 0
  }

  /** The address with the host bits cleared. */
  function NetworkOf(n: Subnet): Ip {
    RemainderBounds(n.network, BlockSize(n.prefix));
    n.network - n.network % BlockSize(n.prefix)
  }

  lemma RemainderBounds(x: nat, size: nat)
    requires size >= 1
    ensures 0 <= x % size <= x && x % size < size && x - x % size == (x / size) * size
  {
  }

  // ---------------------------------------------------------------------------
  // The virtual gateway address
  // ---------------------------------------------------------------------------

  ghost predicate Usable(c: CidrText) {
    c.V4? && c.prefix <= 31
  }

  function SubnetOf(c: CidrText): Subnet
    requires c.V4?
  {
    Subnet(c.ip, c.prefix)
  }

  ghost predicate FirstUsable(texts: seq<CidrText>, i: int) {
    0 <= i < |texts| && Usable(texts[i]) && forall j :: 0 <= j < i ==> !Usable(texts[j])
  }

  /** The broadcast address: the greatest address of the subnet. */
  ghost predicate IsBroadcast(n: Subnet, ip: Ip) {
    Contains(n, ip) && forall x: Ip :: Contains(n, x) ==> x <= ip
  }

  /** The network address: the least address of the subnet. */
  ghost predicate IsNetworkAddress(n: Subnet, ip: Ip) {
    Contains(n, ip) && forall x: Ip :: Contains(n, x) ==> ip <= x
  }

  /** In the subnet, and directly below its broadcast address. */
  ghost predicate IsLastUsable(n: Subnet, ip: Ip) {
    Contains(n, ip) && ip + 1 < WORD && IsBroadcast(n, ip + 1)
  }

  method VirtualGatewayIp(lrpNetworks: seq<CidrText>) returns (r: Option<Ip>)
    ensures r.None? <==> forall i :: 0 <= i < |lrpNetworks| ==> !Usable(lrpNetworks[i])
    ensures r.Some? ==> exists i :: FirstUsable(lrpNetworks, i) && IsLastUsable(SubnetOf(lrpNetworks[i]), r.value)
  {
    for i := 0 to |lrpNetworks|
      invariant forall j :: 0 <= j < i ==> !Usable(lrpNetworks[j])
    {
      var c := lrpNetworks[i];
      if c.NotV4? {
        continue;
      }
      if c.prefix == 32 {
        continue;
      }
      var netInt := NetworkOf(SubnetOf(c));
      var hostBits := WrapSub(ShiftLeft(1, 32 - c.prefix), 1);
      ComputedWordIsLast(SubnetOf(c));
      var lastUsable := WrapSub(Or(netInt, hostBits), 1);
      assert FirstUsable(lrpNetworks, i);
      return Some(lastUsable);
    }
    return None;
  }

  lemma {:induction false} Pow2Sum(m: nat, n: nat)
    ensures Pow2(m + n) == Pow2(m) * Pow2(n)
  {
    if m > 0 {
      Pow2Sum(m - 1, n);
    }
  }

  lemma BlocksFillWord(prefix: Prefix)
    ensures Pow2(prefix) * BlockSize(prefix) == WORD
    ensures prefix > 0 ==> BlockSize(prefix) < WORD
  {
    Pow2Sum(prefix, 32 - prefix);
    Pow2Of32();
    if prefix > 0 {
      ProperFactor(Pow2(prefix), BlockSize(prefix));
    }
  }

  lemma Pow2Of32()
    ensures Pow2(32) == WORD
  {
    assert Pow2(8) == 256;
    Pow2Sum(8, 8);
    Pow2Sum(16, 16);
  }

  lemma ProperFactor(a: nat, b: nat)
    requires a >= 2 && b >= 1
    ensures b < a * b
  {
  }

  /** The shifted-and-decremented word is the block size less 1, prefix 0 included, where both operations wrap. */
  lemma HostBitsAreBlock(prefix: Prefix)
    ensures WrapSub(ShiftLeft(1, 32 - prefix), 1) == BlockSize(prefix) - 1
  {
    if prefix == 0 {
      Pow2Of32();
    } else {
      BlocksFillWord(prefix);
    }
    WordLessOne(BlockSize(prefix));
  }

  lemma WordLessOne(x: nat)
    requires 1 <= x <= WORD
    ensures WrapSub(1 * x % WORD, 1) == x - 1
  {
  }

  lemma {:induction false} OrWithOnes(q: nat, k: nat)
    ensures Or(q * Pow2(k), Pow2(k) - 1) == q * Pow2(k) + Pow2(k) - 1
  {
    if k == 0 {
      OrWithZero(q);
    } else {
      OrWithOnes(q, k - 1);
      DoubleProduct(q, Pow2(k - 1));
      OrStep(q * Pow2(k - 1), Pow2(k - 1) - 1);
    }
  }

  lemma DoubleProduct(q: nat, p: nat)
    ensures q * (2 * p) == 2 * (q * p)
  {
  }

  lemma OrStep(a: nat, b: nat)
    ensures Or(2 * a, 2 * b + 1) == 2 * Or(a, b) + 1
  {
  }

  lemma {:induction false} OrWithZero(x: nat)
    ensures Or(x, 0) == x
  {
    if x > 0 {
      OrWithZero(x / 2);
    }
  }

  lemma OrFillsBlock(n: Subnet)
    ensures Or(NetworkOf(n), BlockSize(n.prefix) - 1) == NetworkOf(n) + BlockSize(n.prefix) - 1
  {
    var size := BlockSize(n.prefix);
    RemainderBounds(n.network, size);
    OrWithOnes(n.network / size, 32 - n.prefix);
  }

  /** Membership as an interval of BlockSize addresses starting at the network address. */
  lemma ContainsIsInterval(n: Subnet, x: Ip)
    ensures Contains(n, x) <==> NetworkOf(n) <= x < NetworkOf(n) + BlockSize(n.prefix)
  {
    var size := BlockSize(n.prefix);
    DivisionInterval(n.network, x, size);
  }

  lemma DivisionInterval(a: nat, x: nat, size: nat)
    requires size >= 1
    ensures x / size == a / size <==> a - a % size <= x < a - a % size + size
  {
    var q := a / size;
    RemainderBounds(a, size);
    RemainderBounds(x, size);
    if q * size <= x < q * size + size {
      QuotientUnique(x, size, q, x - q * size);
    }
  }

  lemma QuotientUnique(x: nat, size: nat, q: nat, r: nat)
    requires size >= 1 && x == q * size + r && r < size
    ensures x / size == q
  {
    var q', r' := x / size, x % size;
    RemainderBounds(x, size);
    if q' < q {
      MulStep(q', q, size);
    } else if q' > q {
      MulStep(q, q', size);
    }
  }

  lemma MulStep(a: nat, b: nat, size: nat)
    requires a < b
    ensures a * size + size <= b * size
  {
    MulMonotone(a + 1, b, size);
    assert (a + 1) * size == a * size + size;
  }

  lemma BlockFitsWord(n: Subnet)
    ensures NetworkOf(n) + BlockSize(n.prefix) <= WORD
  {
    BlocksFillWord(n.prefix);
    var size := BlockSize(n.prefix);
    var q, count := n.network / size, Pow2(n.prefix);
    RemainderBounds(n.network, size);
    if q < count {
      MulStep(q, count, size);
    } else {
      MulMonotone(count, q, size);
    }
  }

  lemma MulMonotone(a: nat, b: nat, size: nat)
    requires a <= b
    ensures a * size <= b * size
  {
  }

  /** Below prefix 32 the computed word does not underflow and is the last address before broadcast. */
  lemma LastUsableIsLast(n: Subnet)
    requires n.prefix <= 31
    ensures NetworkOf(n) + BlockSize(n.prefix) <= WORD && BlockSize(n.prefix) >= 2
    ensures IsLastUsable(n, NetworkOf(n) + BlockSize(n.prefix) - 2)
    ensures WrapSub(NetworkOf(n) + BlockSize(n.prefix) - 1, 1) == NetworkOf(n) + BlockSize(n.prefix) - 2
  {
    BlockFitsWord(n);
    assert BlockSize(n.prefix) == 2 * Pow2(31 - n.prefix);
    EndOfBlockIsLast(n, NetworkOf(n) + BlockSize(n.prefix) - 2);
  }

  lemma EndOfBlockIsLast(n: Subnet, last: Ip)
    requires last == NetworkOf(n) + BlockSize(n.prefix) - 2 && NetworkOf(n) <= last && last + 1 < WORD
    ensures IsLastUsable(n, last)
  {
    ContainsIsInterval(n, last);
    ContainsIsInterval(n, last + 1);
    forall x: Ip | Contains(n, x) ensures x <= last + 1 {
      ContainsIsInterval(n, x);
    }
  }

  lemma ComputedBroadcast(n: Subnet)
    ensures Or(NetworkOf(n), WrapSub(ShiftLeft(1, 32 - n.prefix), 1)) == NetworkOf(n) + BlockSize(n.prefix) - 1
  {
    HostBitsAreBlock(n.prefix);
    OrFillsBlock(n);
  }

  lemma ComputedWordIsLast(n: Subnet)
    requires n.prefix <= 31
    ensures var broadcast := Or(NetworkOf(n), WrapSub(ShiftLeft(1, 32 - n.prefix), 1));
            broadcast < WORD && IsLastUsable(n, WrapSub(broadcast, 1))
  {
    ComputedBroadcast(n);
    BlockFitsWord(n);
    LessOneIsLast(n, Or(NetworkOf(n), WrapSub(ShiftLeft(1, 32 - n.prefix), 1)));
  }

  lemma LessOneIsLast(n: Subnet, broadcast: Ip)
    requires n.prefix <= 31 && broadcast == NetworkOf(n) + BlockSize(n.prefix) - 1
    ensures IsLastUsable(n, WrapSub(broadcast, 1))
  {
    LastUsableIsLast(n);
  }

  /** Up to prefix 30 the last usable address is neither the network nor the broadcast address; at 31 it is the network address. */
  lemma LastUsableIsNetworkOnlyAt31(n: Subnet, ip: Ip)
    requires n.prefix <= 31 && IsLastUsable(n, ip)
    ensures !IsBroadcast(n, ip)
    ensures IsNetworkAddress(n, ip) <==> n.prefix == 31
  {
    LastUsableIsLast(n);
    LastUsableUnique(n, n, ip, NetworkOf(n) + BlockSize(n.prefix) - 2);
    assert BlockSize(n.prefix) == 2 * Pow2(31 - n.prefix);
    ContainsIsInterval(n, NetworkOf(n));
    assert IsNetworkAddress(n, NetworkOf(n)) by {
      forall x: Ip | Contains(n, x) ensures NetworkOf(n) <= x {
        ContainsIsInterval(n, x);
      }
    }
    if n.prefix <= 30 {
      assert Pow2(31 - n.prefix) == 2 * Pow2(30 - n.prefix);
    }
  }

  /** Two router ports in one subnet get the same virtual gateway, whichever chassis computes it. */
  lemma LastUsableUnique(a: Subnet, b: Subnet, x: Ip, y: Ip)
    requires a.prefix == b.prefix && Contains(a, b.network)
    requires IsLastUsable(a, x) && IsLastUsable(b, y)
    ensures x == y
  {
    assert Contains(a, y + 1) && Contains(b, x + 1);
  }

  // ---------------------------------------------------------------------------
  // The next address
  // ---------------------------------------------------------------------------

  type Octet = n: nat | n < 256

  /** The number four octets spell, most significant first. */
  function Value(octets: seq<Octet>): nat {
    if octets == [] then 0 else 256 * Value(octets[..|octets| - 1]) + octets[|octets| - 1]
  }

  function Power256(n: nat): nat { if n == 0 then 1 else 256 * Power256(n - 1) }

  lemma {:induction false} ValueOfConcat(a: seq<Octet>, b: seq<Octet>)
    ensures Value(a + b) == Value(a) * Power256(|b|) + Value(b)
  {
    if b == [] {
      assert a + b == a;
    } else {
      var last := |b| - 1;
      assert (a + b)[..|a + b| - 1] == a + b[..last];
      ValueOfConcat(a, b[..last]);
      ScaledSum(Value(a), Power256(last), Value(b[..last]), b[last]);
    }
  }

  lemma ScaledSum(v: nat, p: nat, w: nat, d: nat)
    ensures 256 * (v * p + w) + d == v * (256 * p) + (256 * w + d)
  {
  }

  lemma {:induction false} ValueOfOnes(n: nat)
    ensures Value(seq(n, _ => 255)) == Power256(n) - 1
    ensures Value(seq(n, _ => 0)) == 0
  {
    if n > 0 {
      assert seq(n, _ => 255)[..n - 1] == seq(n - 1, _ => 255);
      assert seq(n, _ => 0)[..n - 1] == seq(n - 1, _ => 0);
      ValueOfOnes(n - 1);
    }
  }

  /** Carry from the last octet upwards: +1 modulo 2^32, so 255.255.255.255 wraps to 0.0.0.0. */
  method NextIp(ip: array<Octet>) returns (next: array<Octet>)
    requires ip.Length == 4
    ensures fresh(next) && next.Length == 4
    ensures Value(next[..]) == (Value(ip[..]) + 1) % WORD
  {
    next := new Octet[4](k requires 0 <= k < 4 reads ip => ip[k]);
    var i := 3;
    while i >= 0
      invariant -1 <= i <= 3
      invariant next[..i + 1] == ip[..i + 1]
      invariant forall k :: i < k < 4 ==> ip[k] == 255 && next[k] == 0
    {
      next[i] := (next[i] as int + 1) % 256;
      if next[i] != 0 {
        CarryStops(ip[..], next[..], i);
        return;
      }
      i := i - 1;
    }
    assert ip[..] == seq(4, _ => 255) && next[..] == seq(4, _ => 0);
    ValueOfOnes(4);
    FourOctets();
  }

  lemma CarryStops(a: seq<Octet>, b: seq<Octet>, i: nat)
    requires i < |a| == |b| == 4
    requires a[..i] == b[..i] && b[i] as int == a[i] as int + 1
    requires forall k :: i < k < 4 ==> a[k] == 255 && b[k] == 0
    ensures Value(b) == (Value(a) + 1) % WORD
  {
    CarryIsPlusOne(a, b, i);
    ValueBounds(b);
    FourOctets();
  }

  lemma CarryIsPlusOne(a: seq<Octet>, b: seq<Octet>, i: nat)
    requires i < |a| == |b| == 4
    requires a[..i] == b[..i] && b[i] as int == a[i] as int + 1
    requires forall k :: i < k < 4 ==> a[k] == 255 && b[k] == 0
    ensures Value(b) == Value(a) + 1
  {
    assert a == a[..i + 1] + seq(3 - i, _ => 255);
    assert b == b[..i + 1] + seq(3 - i, _ => 0);
    assert a[..i + 1][..i] == a[..i] && b[..i + 1][..i] == b[..i];
    CarryAdds(a[..i + 1], b[..i + 1], 3 - i);
  }

  lemma FourOctets()
    ensures Power256(4) == WORD
  {
    assert Power256(2) == 65536;
  }

  lemma CarryAdds(a: seq<Octet>, b: seq<Octet>, n: nat)
    requires |a| == |b| > 0 && a[..|a| - 1] == b[..|b| - 1] && b[|b| - 1] as int == a[|a| - 1] as int + 1
    ensures Value(b + seq(n, _ => 0)) == Value(a + seq(n, _ => 255)) + 1
  {
    ValueOfConcat(a, seq(n, _ => 255));
    ValueOfConcat(b, seq(n, _ => 0));
    ValueOfOnes(n);
    CarryValue(Value(a), Value(b), Power256(n));
  }

  lemma CarryValue(x: nat, y: nat, p: nat)
    requires y == x + 1
    ensures y * p + 0 == (x * p + (p - 1)) + 1
  {
  }

  lemma {:induction false} ValueBounds(a: seq<Octet>)
    ensures Value(a) < Power256(|a|)
  {
    if a != [] {
      ValueBounds(a[..|a| - 1]);
    }
  }
}
