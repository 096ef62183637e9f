/** The search for the next free tunnel subnet and port. */
module TunnelDefaults {
  import opened Text
  import opened Networks

  const DEFAULT_PORT := 51820

  /** What the search looks at of a tunnel: its subnet as text and its port. */
  datatype Used = Used(subnet: string, port: int)

  function SubnetText(n: nat): string {
    "10.100." + Decimal(n) + ".0/24"
  }

  function Subnets(ts: seq<Used>): set<string> {
    set t | t in ts :: t.subnet
  }

  function Ports(ts: seq<Used>): set<int> {
    set t | t in ts :: t.port
  }

  predicate Taken(n: nat, subnets: set<string>, ports: set<int>) {
    SubnetText(n) in subnets || DEFAULT_PORT + n in ports
  }

  lemma SubnetTextInjective(m: nat, n: nat)
    requires SubnetText(m) == SubnetText(n)
    ensures m == n
  {
    var p, e := "10.100.", ".0/24";
    var a, b := p + Decimal(m) + e, p + Decimal(n) + e;
    assert Decimal(m) == a[|p|..|a| - |e|] && Decimal(n) == b[|p|..|b| - |e|];
    DecimalInjective(m, n);
  }

  /** Pigeonhole: the numbers below `n` can all be taken only by as many subnets and ports. */
  lemma {:induction false} TakenIsBounded(n: nat, subnets: set<string>, ports: set<int>)
    requires forall k: nat | k < n :: Taken(k, subnets, ports)
    ensures n <= |subnets| + |ports|
    decreases n
  {
    if n > 0 {
      var m: nat := n - 1;
      assert Taken(m, subnets, ports);
      if SubnetText(m) in subnets {
        var fewer := subnets - {SubnetText(m)};
        forall k: nat | k < m ensures Taken(k, fewer, ports) {
          assert Taken(k, subnets, ports);
          if SubnetText(k) == SubnetText(m) { SubnetTextInjective(k, m); }
        }
        TakenIsBounded(m, fewer, ports);
      } else {
        var fewer := ports - {DEFAULT_PORT + m};
        forall k: nat | k < m ensures Taken(k, subnets, fewer) {
          assert Taken(k, subnets, ports);
        }
        TakenIsBounded(m, subnets, fewer);
      }
    }
  }

  lemma {:induction false} UsedAtMostOnce(ts: seq<Used>)
    ensures |Subnets(ts)| <= |ts| && |Ports(ts)| <= |ts|
  {
    if ts != [] {
      UsedAtMostOnce(ts[1..]);
      assert forall t :: t in ts <==> t == ts[0] || t in ts[1..];
      assert Subnets(ts) == {ts[0].subnet} + Subnets(ts[1..]);
      assert Ports(ts) == {ts[0].port} + Ports(ts[1..]);
    }
  }

  /** The least number whose subnet and port no tunnel uses. */
  ghost predicate LeastFree(n: nat, tunnels: seq<Used>) {
    && SubnetText(n) !in Subnets(tunnels) && 51820 + n !in Ports(tunnels)
    && forall k: nat | k < n :: Taken(k, Subnets(tunnels), Ports(tunnels))
  }

  /** `_suggest_tunnel_defaults`: terminates, and finds the least number free in both respects. */
  method SuggestTunnelDefaults(tunnels: seq<Used>) returns (subnet: string, port: int)
    ensures 51820 <= port <= 51820 + 2 * |tunnels|
    ensures LeastFree(port - 51820, tunnels) && subnet == SubnetText(port - 51820)
  {
    var usedSubnets, usedPorts := Subnets(tunnels), Ports(tunnels);
    UsedAtMostOnce(tunnels);
    var i: nat := 0;
    while true
      invariant forall k: nat | k < i :: Taken(k, usedSubnets, usedPorts)
      invariant i <= 2 * |tunnels|
      decreases 2 * |tunnels| - i
    {
      subnet := SubnetText(i);
      port := DEFAULT_PORT + i;
      if subnet !in usedSubnets && port !in usedPorts {
        return;
      }
      i := i + 1;
      TakenIsBounded(i, usedSubnets, usedPorts);
    }
  }

  // ---------- what "not colliding" amounts to ----------

  /** The text of an IPv4 network. */
  function Render(m: Net): string {
    Decimal(m.base / 0x100_0000) + "." + Decimal(m.base / 0x1_0000 % 256) + "." + Decimal(m.base / 256 % 256)
    + "." + Decimal(m.base % 256) + "/" + Decimal(m.prefix)
  }

  function Suggested(n: nat): Net {
    Net(4, 0x0A64_0000 + 256 * n, 24)
  }

  lemma SmallDecimals()
    ensures Decimal(10) == "10" && Decimal(100) == "100" && Decimal(0) == "0" && Decimal(24) == "24"
  {
    assert Decimal(1) == "1" && Decimal(2) == "2";
    assert Decimal(10) == Decimal(1) + "0" && Decimal(24) == Decimal(2) + "4" && Decimal(100) == Decimal(10) + "0";
  }

  lemma SuggestionIsRendered(n: nat)
    requires n <= 255
    ensures Render(Suggested(n)) == SubnetText(n) && Proper(Suggested(n)) && Size(Suggested(n)) == 256
  {
    SmallDecimals();
    var b := Suggested(n).base;
    assert b / 0x100_0000 == 10 && b / 0x1_0000 % 256 == 100 && b / 256 % 256 == n && b % 256 == 0;
    assert Pow2(8) == 256 by { assert Pow2(4) == 16; Pow2Splits(4, 8); }
    var d := Decimal(n);
    assert "10" + "." + "100" + "." + d + "." + "0" + "/" + "24" == "10.100." + d + ".0/24";
  }

  lemma DistinctPeersAreDisjoint(m: Net, n: Net)
    requires Proper(m) && Proper(n) && m.prefix == n.prefix && m.version == n.version && m != n
    ensures !Overlaps(m, n)
  {
    if Overlaps(m, n) {
      ContainsIsRange(m, m.base);
      ContainsIsRange(n, n.base);
      OverlappingIsNested(m, n, m.base);
      OverlapsIsSymmetric(m, n);
      OverlappingIsNested(n, m, n.base);
      ContainsIsRange(n, m.base);
      ContainsIsRange(m, n.base);
    }
  }

  /** Whether a network of another prefix length than 24 meets the 256 addresses from `at`. */
  predicate Hits(m: Net, at: nat)
    requires Proper(m)
  {
    m.version == 4 && if m.prefix < 24 then m.base <= at < m.base + Size(m) else m.prefix > 24 && m.base / 256 == at / 256
  }

  lemma WiderOverlaps(s: Net, m: Net)
    requires Proper(s) && Proper(m) && s.version == m.version && m.prefix <= s.prefix
    ensures Overlaps(s, m) <==> m.base <= s.base < m.base + Size(m)
  {
    hide Overlaps, Contains, Size;
    ContainsIsRange(s, s.base);
    ContainsIsRange(m, s.base);
    if Overlaps(s, m) {
      OverlappingIsNested(s, m, s.base);
    } else if Contains(m, m.version, s.base) {
      OverlapIsSharing(s, m);
    }
  }

  lemma VersionsDoNotOverlap(s: Net, m: Net)
    requires Proper(s) && Proper(m) && s.version != m.version
    ensures !Overlaps(s, m)
  {
  }

  /** What the overlap of a suggestion with one network comes to. */
  lemma SuggestionMeets(n: nat, m: Net)
    requires n <= 255 && Proper(m)
    ensures Proper(Suggested(n)) && (Overlaps(Suggested(n), m) <==> Hits(m, Suggested(n).base) || m == Suggested(n))
  {
    hide Overlaps, Render;
    SuggestionIsRendered(n);
    var s := Suggested(n);
    if m.version != 4 {
      VersionsDoNotOverlap(s, m);
    } else if m.prefix < 24 {
      WiderOverlaps(s, m);
    } else if m.prefix > 24 {
      OverlapsIsSymmetric(s, m);
      WiderOverlaps(m, s);
    } else {
      WiderOverlaps(s, m);
      if m != s { DistinctPeersAreDisjoint(s, m); }
    }
  }

  /** The subnet that each tunnel stores is the text of its network. */
  predicate Stores(tunnels: seq<Used>, nets: seq<Net>) {
    |tunnels| == |nets|
    && forall i | 0 <= i < |nets| :: Proper(nets[i]) && (nets[i].version == 4 ==> tunnels[i].subnet == Render(nets[i]))
  }

  /**
   What is suggested overlaps a stored tunnel if and only if some IPv4 tunnel with a shorter prefix holds
   its base address, or one with a longer prefix lies in its 256 addresses; and it is a network at all
   only up to number 255.
   */
  lemma SuggestionClearance(tunnels: seq<Used>, nets: seq<Net>, n: nat)
    requires Stores(tunnels, nets) && LeastFree(n, tunnels)
    ensures n <= 255 ==>
              Proper(Suggested(n)) && Render(Suggested(n)) == SubnetText(n)
              && ((exists m :: m in nets && Overlaps(Suggested(n), m)) <==> (exists m :: m in nets && Hits(m, Suggested(n).base)))
    ensures n > 255 ==> forall m | Proper(m) :: Render(m) != SubnetText(n)
  {
    hide Overlaps, Hits, Render, SubnetText;
    if n <= 255 {
      SuggestionIsRendered(n);
      forall m | m in nets ensures Overlaps(Suggested(n), m) <==> Hits(m, Suggested(n).base) {
        SuggestionMeets(n, m);
        var i :| 0 <= i < |nets| && nets[i] == m;
        assert tunnels[i].subnet in Subnets(tunnels);
      }
    } else {
      forall m | Proper(m) ensures Render(m) != SubnetText(n) {
        if Render(m) == SubnetText(n) { ThirdPart(m, n); }
      }
    }
  }

  lemma NoDot(n: nat)
    ensures '.' !in Decimal(n)
  {
  }

  lemma JoinStep(part: string, parts: seq<string>, sep: string)
    requires parts != []
    ensures Join([part] + parts, sep) == part + sep + Join(parts, sep)
  {
    assert ([part] + parts)[1..] == parts;
  }

  lemma JoinFour(a: string, b: string, c: string, d: string, sep: string)
    ensures Join([a, b, c, d], sep) == a + sep + b + sep + c + sep + d
  {
    hide Join;
    JoinStep(a, [b, c, d], sep);
    JoinStep(b, [c, d], sep);
    JoinStep(c, [d], sep);
    JoinOne(d, sep);
    assert [a] + [b, c, d] == [a, b, c, d] && [b] + [c, d] == [b, c, d] && [c] + [d] == [c, d];
    Regroup(a, b, c, d, sep);
  }

  lemma JoinOne(d: string, sep: string)
    ensures Join([d], sep) == d
  {
  }

  lemma Regroup(a: string, b: string, c: string, d: string, sep: string)
    ensures a + sep + (b + sep + (c + sep + d)) == a + sep + b + sep + c + sep + d
  {
  }

  lemma FourParts(a: string, b: string, c: string, d: string)
    requires '.' !in a && '.' !in b && '.' !in c && '.' !in d
    ensures Split(a + "." + b + "." + c + "." + d, '.') == [a, b, c, d]
  {
    hide Split, Join;
    JoinFour(a, b, c, d, ".");
    SplitOfJoin([a, b, c, d], '.');
    assert "." == ['.'];
  }

  lemma SubnetTextParts(d: string)
    ensures "10.100." + d + ".0/24" == "10" + "." + "100" + "." + d + "." + "0/24"
  {
    assert "10.100." == "10" + "." + "100" + "." && ".0/24" == "." + "0/24";
  }

  lemma NoDots(m: Net)
    ensures '.' !in Decimal(m.base / 0x100_0000) && '.' !in Decimal(m.base / 0x1_0000 % 256)
    ensures '.' !in Decimal(m.base / 256 % 256) && '.' !in Decimal(m.base % 256) + "/" + Decimal(m.prefix)
  {
    NoDot(m.base / 0x100_0000);
    NoDot(m.base / 0x1_0000 % 256);
    NoDot(m.base / 256 % 256);
    NoDot(m.base % 256);
    NoDot(m.prefix);
  }

  lemma RenderParts(m: Net)
    ensures Split(Render(m), '.') == [Decimal(m.base / 0x100_0000), Decimal(m.base / 0x1_0000 % 256), Decimal(m.base / 256 % 256),
                                      Decimal(m.base % 256) + "/" + Decimal(m.prefix)]
  {
    hide Split, Decimal;
    var a, b, c := Decimal(m.base / 0x100_0000), Decimal(m.base / 0x1_0000 % 256), Decimal(m.base / 256 % 256);
    var d, e := Decimal(m.base % 256), Decimal(m.prefix);
    NoDots(m);
    FourParts(a, b, c, d + "/" + e);
    assert a + "." + b + "." + c + "." + (d + "/" + e) == a + "." + b + "." + c + "." + d + "/" + e;
  }

  lemma SuggestionParts(n: nat)
    ensures Split(SubnetText(n), '.') == ["10", "100", Decimal(n), "0/24"]
  {
    hide Split, Decimal;
    NoDot(n);
    FourParts("10", "100", Decimal(n), "0/24");
    SubnetTextParts(Decimal(n));
  }

  /** Equal texts have equal third numbers. */
  lemma ThirdPart(m: Net, n: nat)
    requires Render(m) == SubnetText(n)
    ensures m.base / 256 % 256 == n
  {
    hide Split, Decimal, Render, SubnetText;
    RenderParts(m);
    SuggestionParts(n);
    assert Split(Render(m), '.')[2] == Split(SubnetText(n), '.')[2];
    DecimalInjective(m.base / 256 % 256, n);
  }

  /** A tunnel on 10.100.0.0/16: the first suggestion is free as text, and yet overlaps it. */
  lemma SuggestionMayOverlap()
    ensures var wide := Net(4, 0x0A64_0000, 16);
            Proper(wide) && Proper(Suggested(0)) && Render(wide) != SubnetText(0) && Overlaps(Suggested(0), wide)
  {
    var wide := Net(4, 0x0A64_0000, 16);
    SuggestionIsRendered(0);
    assert Pow2(16) == 65536 by { assert Pow2(4) == 16; Pow2Splits(4, 8); Pow2Splits(8, 16); }
    SmallDecimals();
    assert Decimal(1) == "1" && Decimal(16) == Decimal(1) + "6";
    var a, b := Render(wide), SubnetText(0);
    assert a[|a| - 1] == '6' && b[|b| - 1] == '4';
    ContainsIsRange(wide, Suggested(0).base);
  }
}
