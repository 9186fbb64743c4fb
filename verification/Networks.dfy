/** IP networks as address blocks, and the containment test behind CIDR narrowing. */
module Networks {
  import opened Text

  /** A parsed network: IPv4 or IPv6, an address and a prefix length. */
  datatype Network = Network(v4: bool, address: nat, prefix: nat)

  function Width(v4: bool): nat { if v4 then 32 else 128 }

  function Pow2(n: nat): (p: nat)
    ensures p >= 1
  {
    if n == 0 then 1 else 2 * Pow2(n - 1)
  }

  /** What the address parser yields. */
  predicate Parsed(n: Network) {
    n.prefix <= Width(n.v4) && n.address < Pow2(Width(n.v4))
  }

  type IpNetwork = n: Network | Parsed(n) witness Network(true, 0, 0)

  function BlockSize(n: Network): (b: nat)
    requires Parsed(n)
    ensures b >= 1
  {
    Pow2(Width(n.v4) - n.prefix)
  }

  /** `ip_network(value, strict=False)`: clear the host bits. */
  function Masked(n: Network): (r: Network)
    requires Parsed(n)
    ensures Parsed(r) && r.v4 == n.v4 && r.prefix == n.prefix && r.address % BlockSize(r) == 0
  {
    var b := BlockSize(n);
    var r := n.(address := n.address - n.address % b);
    assert r.address == n.address / b * b;
    MultipleLeavesNothing(n.address / b, b);
    r
  }

  lemma MultipleLeavesNothing(k: nat, b: nat)
    requires b >= 1
    ensures (k * b) % b == 0 && k * b / b == k
  {
    DivUnique(k * b, b, k, 0);
  }

  lemma DivUnique(x: int, b: int, q: int, r: int)
    requires b >= 1 && x == q * b + r && 0 <= r < b
    ensures x / b == q && x % b == r
  {
    var d := x / b - q;
    assert x == (x / b) * b + x % b;
    assert d * b == r - x % b;
    Multiples(d, b);
  }

  lemma Multiples(d: int, b: int)
    requires b >= 1
    ensures d >= 1 ==> d * b >= b
    ensures d <= -1 ==> d * b <= -b
  {
  }

  lemma MultipleOrder(p: int, q: int, b: int)
    requires b >= 1
    ensures p < q <==> p * b < q * b
    ensures p < q <==> (p + 1) * b <= q * b
  {
    Multiples(q - p, b);
    assert (q - p) * b == q * b - p * b;
    assert (p + 1) * b == p * b + b;
  }

  /** The addresses of a network. */
  predicate InNetwork(x: nat, n: Network)
    requires Parsed(n)
  {
    n.address <= x < n.address + BlockSize(n)
  }

  /** `requested.subnet_of(allowed)` for one address family. */
  predicate SubnetOf(requested: Network, allowed: Network)
    requires Parsed(requested) && Parsed(allowed) && requested.v4 == allowed.v4
  {
    && allowed.address <= requested.address
    && allowed.address + BlockSize(allowed) - 1 >= requested.address + BlockSize(requested) - 1
  }

  lemma {:induction false} Pow2Splits(m: nat, n: nat)
    requires m <= n
    ensures Pow2(n) == Pow2(m) * Pow2(n - m)
    decreases n
  {
    if m < n {
      Pow2Splits(m, n - 1);
      assert Pow2(n) == 2 * (Pow2(m) * Pow2(n - 1 - m));
      assert Pow2(n - m) == 2 * Pow2(n - m - 1);
    }
  }

  lemma {:induction false} Pow2Ascends(m: nat, n: nat)
    requires m < n
    ensures Pow2(m) < Pow2(n)
    decreases n
  {
    if m < n - 1 {
      Pow2Ascends(m, n - 1);
    }
  }

  lemma Rounded(a: nat, b: nat)
    requires b >= 1
    ensures a - a % b == (a / b) * b && a % b < b
  {
  }

  lemma SameQuotient(x: nat, a: nat, b: nat)
    requires b >= 1
    ensures a - a % b <= x < a - a % b + b <==> x / b == a / b
  {
    var from := a - a % b;
    Rounded(a, b);
    Rounded(x, b);
    if from <= x < from + b {
      DivUnique(x, b, a / b, x - from);
    }
  }

  /** The addresses of the masked network are those that agree with the given one up to its block. */
  lemma MaskedIsBlock(n: Network, x: nat)
    requires Parsed(n)
    ensures InNetwork(x, Masked(n)) <==> x / BlockSize(n) == n.address / BlockSize(n)
  {
    SameQuotient(x, n.address, BlockSize(n));
  }

  /** A prefix of `k` bits cuts the address space of 32 or 128 bits into 2^k blocks. */
  lemma BlocksFillSpace(n: Network)
    requires Parsed(n)
    ensures BlockSize(n) * Pow2(n.prefix) == Pow2(if n.v4 then 32 else 128)
  {
    Pow2Splits(n.prefix, Width(n.v4));
  }

  /** Accepted if and only if every requested address is an allowed one. */
  lemma SubnetIsContainment(requested: Network, allowed: Network)
    requires Parsed(requested) && Parsed(allowed) && requested.v4 == allowed.v4
    ensures SubnetOf(requested, allowed) <==> (forall x: nat :: InNetwork(x, requested) ==> InNetwork(x, allowed))
  {
    if forall x: nat :: InNetwork(x, requested) ==> InNetwork(x, allowed) {
      assert InNetwork(requested.address, requested);
      assert InNetwork(requested.address + BlockSize(requested) - 1, requested);
    }
  }

  /** ... equivalently, the prefix is not shorter and the masked prefixes agree. */
  lemma SubnetIsPrefixMatch(requested: Network, allowed: Network)
    requires Parsed(requested) && Parsed(allowed) && requested.v4 == allowed.v4
    requires requested.address % BlockSize(requested) == 0 && allowed.address % BlockSize(allowed) == 0
    ensures SubnetOf(requested, allowed) <==>
            && requested.prefix >= allowed.prefix
            && Masked(requested.(prefix := allowed.prefix)).address == allowed.address
  {
    var w := Width(allowed.v4);
    var a, b := BlockSize(requested), BlockSize(allowed);
    var ra, ba := requested.address, allowed.address;
    if requested.prefix < allowed.prefix {
      Pow2Ascends(w - allowed.prefix, w - requested.prefix);
    } else {
      Pow2Splits(w - requested.prefix, w - allowed.prefix);
      AlignedBlocks(ra, a, ba, b, Pow2(requested.prefix - allowed.prefix));
    }
  }

  /** For aligned blocks the larger of which is a multiple of the smaller: inside iff same big block. */
  lemma AlignedBlocks(ra: nat, a: nat, ba: nat, b: nat, c: nat)
    requires a >= 1 && c >= 1 && b == a * c && ra % a == 0 && ba % b == 0
    ensures b >= 1
    ensures ba <= ra && ba + b >= ra + a <==> ra - ra % b == ba
  {
    Multiples(c, a);
    assert c * a == a * c;
    var k, m := ra / a, ba / b;
    assert ra == k * a && ba == m * b;
    if ba <= ra && ba + b >= ra + a {
      DivUnique(ra, b, m, ra - ba);
    }
    if ra - ra % b == ba {
      NextBlock(k, a, m, b, c);
    }
  }

  /** A small block starting before the end of a big one also ends there. */
  lemma NextBlock(k: nat, a: nat, m: nat, b: nat, c: nat)
    requires a >= 1 && b == a * c && k * a < m * b + b
    ensures k * a + a <= m * b + b
  {
    var limit := (m + 1) * c;
    assert (m + 1) * b == limit * a by {
      Regroup(m + 1, a, c);
    }
    assert (m + 1) * b == m * b + b;
    MultipleOrder(k, limit, a);
    assert (k + 1) * a == k * a + a;
  }

  lemma Regroup(x: nat, a: nat, c: nat)
    ensures x * (a * c) == x * c * a
  {
  }
}
