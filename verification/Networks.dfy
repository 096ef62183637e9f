/** IP networks as the `ipaddress` module has them: a masked base address and a prefix length. */
module Networks {
  import opened Text

  datatype Net = Net(version: nat, base: nat, prefix: nat)

  /** A subnet as stored: text that parses to an address and a prefix, or does not parse. */
  datatype Subnet = Cidr(version: nat, address: nat, prefix: nat) | Unparsable

  function Pow2(n: nat): (p: nat)
    ensures p > 0
  {
    if n == 0 then 1 else 2 * Pow2(n - 1)
  }

  predicate Version(v: nat) {
    v == 4 || v == 6
  }

  function Width(v: nat): nat {
    if v == 4 then 32 else 128
  }

  /** The number of addresses of a network. */
  function Size(n: Net): (s: nat)
    requires n.prefix <= Width(n.version)
    ensures s > 0
  {
    Pow2(Width(n.version) - n.prefix)
  }

  predicate Proper(n: Net) {
    Version(n.version) && n.prefix <= Width(n.version) && n.base % Size(n) == 0
  }

  /** `ip_network(text, strict=False)`: host bits are masked away. */
  function Parse(s: Subnet): (n: Option<Net>)
    ensures n.Some? ==> Proper(n.value)
  {
    if s.Unparsable? || !Version(s.version) || s.prefix > Width(s.version) then None
    else
      var size := Pow2(Width(s.version) - s.prefix);
      MaskedBase(s.address, size);
      Some(Net(s.version, s.address - s.address % size, s.prefix))
  }

  /** What a subnet parses to: the network of its prefix length that holds its address. */
  lemma ParseIs(s: Subnet)
    ensures Parse(s).Some? <==> s.Cidr? && (s.version == 4 || s.version == 6) && s.prefix <= (if s.version == 4 then 32 else 128)
    ensures Parse(s).Some? ==>
              var n := Parse(s).value; n.version == s.version && n.prefix == s.prefix && Contains(n, s.version, s.address)
  {
  }

  /** `str(network)`. */
  function Canonical(n: Net): Subnet {
    Cidr(n.version, n.base, n.prefix)
  }

  lemma MaskedBase(a: nat, size: nat)
    requires size > 0
    ensures a - a % size >= 0 && (a - a % size) % size == 0
  {
    assert a == size * (a / size) + a % size;
    MultipleModZero(a / size, size);
  }

  lemma MultipleModZero(k: nat, size: nat)
    requires size > 0
    ensures (size * k) % size == 0 && (size * k) / size == k
  {
    DivModIs(size * k, size, k, 0);
  }

  lemma DivModIs(a: nat, size: nat, q: nat, r: nat)
    requires size > 0 && a == size * q + r && r < size
    ensures a / size == q && a % size == r
  {
    var d := a / size - q;
    assert a == size * (a / size) + a % size;
    assert size * d == r - a % size;
    assert d > 0 ==> size * d >= size;
    assert d < 0 ==> size * d <= -1 * size;
  }

  lemma CanonicalParses(n: Net)
    requires Proper(n)
    ensures Parse(Canonical(n)) == Some(n)
  {
  }

  /** `address in network`: the address under the netmask is the network's base. */
  predicate Contains(n: Net, version: nat, a: nat)
    requires Proper(n)
  {
    version == n.version && a - a % Size(n) == n.base
  }

  function Broadcast(n: Net): nat
    requires Proper(n)
  {
    n.base + Size(n) - 1
  }

  /** `network.overlaps(other)`. */
  predicate Overlaps(m: Net, n: Net)
    requires Proper(m) && Proper(n)
  {
    Contains(n, m.version, m.base) || Contains(n, m.version, Broadcast(m))
    || Contains(m, n.version, n.base) || Contains(m, n.version, Broadcast(n))
  }

  lemma ContainsIsRange(n: Net, a: nat)
    requires Proper(n)
    ensures Contains(n, n.version, a) <==> n.base <= a < n.base + Size(n)
  {
    var s := Size(n);
    assert a == s * (a / s) + a % s && n.base == s * (n.base / s);
    if n.base <= a < n.base + s {
      DivModIs(a, s, n.base / s, a - n.base);
    }
  }

  /** The test the routes make is exactly whether two networks have an address in common. */
  lemma OverlapIsSharing(m: Net, n: Net)
    requires Proper(m) && Proper(n)
    ensures Overlaps(m, n) <==> exists v, a :: Contains(m, v, a) && Contains(n, v, a)
  {
    if m.version == n.version {
      ContainsIsRange(n, m.base);
      ContainsIsRange(n, Broadcast(m));
      ContainsIsRange(m, n.base);
      ContainsIsRange(m, Broadcast(n));
      ContainsIsRange(m, m.base);
      ContainsIsRange(n, n.base);
      ContainsIsRange(m, Broadcast(m));
      ContainsIsRange(n, Broadcast(n));
      if v, a :| Contains(m, v, a) && Contains(n, v, a) {
        ContainsIsRange(m, a);
        ContainsIsRange(n, a);
      }
    }
  }

  lemma OverlapsIsSymmetric(m: Net, n: Net)
    requires Proper(m) && Proper(n)
    ensures Overlaps(m, n) == Overlaps(n, m)
  {
  }

  lemma Pow2Splits(i: nat, j: nat)
    requires i <= j
    ensures Pow2(j) == Pow2(i) * Pow2(j - i)
  {
    if i < j { Pow2Splits(i, j - 1); }
  }

  lemma SizesDivide(m: Net, n: Net)
    requires m.version == n.version && n.prefix <= m.prefix <= Width(m.version)
    ensures Size(n) == Size(m) * Pow2(m.prefix - n.prefix)
  {
    var w := Width(n.version);
    Pow2Splits(w - m.prefix, w - n.prefix);
  }

  lemma ProperBase(n: Net)
    requires Proper(n)
    ensures n.base % Size(n) == 0
  {
  }

  /** CIDR blocks that overlap are nested: every address of the longer prefix lies in the shorter. */
  lemma OverlappingIsNested(m: Net, n: Net, a: nat)
    requires Proper(m) && Proper(n) && Overlaps(m, n) && n.prefix <= m.prefix
    requires Contains(m, m.version, a)
    ensures Contains(n, m.version, a)
  {
    hide Overlaps, Size, Pow2;
    OverlapIsSharing(m, n);
    var v, c :| Contains(m, v, c) && Contains(n, v, c);
    var sm, sn, k := Size(m), Size(n), Pow2(m.prefix - n.prefix);
    SizesDivide(m, n);
    ProperBase(m);
    ProperBase(n);
    ContainsIsRange(m, a);
    ContainsIsRange(m, c);
    ContainsIsRange(n, a);
    ContainsIsRange(n, c);
    AlignedBlocks(m.base, sm, n.base, k);
  }

  /** A block aligned to a divisor of another block's size cannot straddle its border. */
  lemma AlignedBlocks(b: nat, s: nat, base: nat, k: nat)
    requires s > 0 && k > 0 && b % s == 0 && base % (s * k) == 0
    ensures base <= b + s - 1 && b < base + s * k ==> base <= b && b + s <= base + s * k
  {
    var q, r := b / s, base / (s * k);
    assert b == s * q;
    assert base == (s * k) * r;
    Associate(s, k, r);
    if base <= b + s - 1 && b < base + s * k {
      var m := k * r;
      Distribute(s, q, 1);
      Distribute(s, m, k);
      LessByFactor(s, m, q + 1);
      LessByFactor(s, q, m + k);
      MonotoneByFactor(s, m, q);
      MonotoneByFactor(s, q + 1, m + k);
    }
  }

  lemma Associate(s: nat, k: nat, r: nat)
    ensures (s * k) * r == s * (k * r)
  {
  }

  lemma Distribute(s: nat, x: nat, y: nat)
    ensures s * (x + y) == s * x + s * y
  {
  }

  lemma LessByFactor(s: nat, x: nat, y: nat)
    requires s > 0 && s * x < s * y
    ensures x < y
  {
    if y <= x { MonotoneByFactor(s, y, x); }
  }

  lemma MonotoneByFactor(s: nat, x: nat, y: nat)
    requires x <= y
    ensures s * x <= s * y
  {
    assert s * y == s * x + s * (y - x);
  }
}
