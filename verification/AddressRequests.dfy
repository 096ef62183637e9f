/** What each request to the router does to its lists, in terms of addresses. */
module AddressRequests {
  import opened Text
  import opened Networks
  import opened AddressSpace

  // ---------- addresses in use ----------

  ghost predicate InZone(z: Zone, version: nat, a: nat) {
    var n := Parse(z.subnet); n.Some? && Contains(n.value, version, a)
  }

  ghost predicate InTunnel(t: Tunnel, version: nat, a: nat) {
    var n := Parse(t.subnet); n.Some? && Contains(n.value, version, a)
  }

  /** An address of 192.168.95.0/24, of 192.168.90.0/24, of a zone or of a tunnel. */
  ghost predicate InUse(s: Space, version: nat, a: nat) {
    (version == 4 && (a / 256 == 0xC0A85F || a / 256 == 0xC0A85A))
    || (exists z :: z in s.zones && InZone(z, version, a)) || (exists t :: t in s.tunnels && InTunnel(t, version, a))
  }

  lemma BuiltinAddresses(version: nat, a: nat)
    ensures Proper(LAN) && Proper(DMZ)
    ensures Contains(LAN, version, a) <==> version == 4 && a / 256 == 0xC0A85F
    ensures Contains(DMZ, version, a) <==> version == 4 && a / 256 == 0xC0A85A
  {
    BuiltinsAreProper();
    assert Size(LAN) == 256 && Size(DMZ) == 256 by { assert Pow2(4) == 16; Pow2Splits(4, 8); }
  }

  lemma {:induction false} NetOfSome(subnets: seq<Subnet>, m: Net)
    ensures m in Nets(subnets) <==> exists x :: x in subnets && Parse(x) == Some(m)
  {
    hide Parse;
    if subnets != [] {
      NetOfSome(subnets[1..], m);
      assert forall x :: x in subnets <==> x == subnets[0] || x in subnets[1..];
    }
  }

  lemma ZoneNetOfSome(zones: seq<Zone>, m: Net)
    ensures m in ZoneNets(zones) <==> exists z :: z in zones && Parse(z.subnet) == Some(m)
  {
    hide Parse, Nets;
    var subnets := ZoneSubnets(zones);
    NetOfSome(subnets, m);
    if x :| x in subnets && Parse(x) == Some(m) {
      var i :| 0 <= i < |zones| && subnets[i] == x;
      assert zones[i] in zones;
    }
    if z :| z in zones && Parse(z.subnet) == Some(m) {
      var i :| 0 <= i < |zones| && zones[i] == z;
      assert subnets[i] in subnets;
    }
  }

  lemma TunnelNetOfSome(tunnels: seq<Tunnel>, m: Net)
    ensures m in TunnelNets(tunnels) <==> exists t :: t in tunnels && Parse(t.subnet) == Some(m)
  {
    hide Parse, Nets;
    var subnets := TunnelSubnets(tunnels);
    NetOfSome(subnets, m);
    if x :| x in subnets && Parse(x) == Some(m) {
      var i :| 0 <= i < |tunnels| && subnets[i] == x;
      assert tunnels[i] in tunnels;
    }
    if t :| t in tunnels && Parse(t.subnet) == Some(m) {
      var i :| 0 <= i < |tunnels| && tunnels[i] == t;
      assert subnets[i] in subnets;
    }
  }

  lemma InKnown(s: Space, m: Net)
    ensures m in Known(s) <==> m == LAN || m == DMZ || m in ZoneNets(s.zones) || m in TunnelNets(s.tunnels)
  {
    hide ZoneNets, TunnelNets;
    BuiltinsAreProper();
  }

  /** The known networks hold exactly the addresses in use. */
  lemma KnownHolds(s: Space, version: nat, a: nat)
    ensures InUse(s, version, a) <==> exists m :: m in Known(s) && Contains(m, version, a)
  {
    hide Parse, Known, ZoneNets, TunnelNets, Contains;
    BuiltinAddresses(version, a);
    InKnown(s, LAN);
    InKnown(s, DMZ);
    if m :| m in Known(s) && Contains(m, version, a) {
      InKnown(s, m);
      ZoneNetOfSome(s.zones, m);
      TunnelNetOfSome(s.tunnels, m);
      if m in ZoneNets(s.zones) {
        var z :| z in s.zones && Parse(z.subnet) == Some(m);
        assert InZone(z, version, a);
      } else if m in TunnelNets(s.tunnels) {
        var t :| t in s.tunnels && Parse(t.subnet) == Some(m);
        assert InTunnel(t, version, a);
      }
    }
    if z :| z in s.zones && InZone(z, version, a) {
      ZoneNetOfSome(s.zones, Parse(z.subnet).value);
      InKnown(s, Parse(z.subnet).value);
    }
    if t :| t in s.tunnels && InTunnel(t, version, a) {
      TunnelNetOfSome(s.tunnels, Parse(t.subnet).value);
      InKnown(s, Parse(t.subnet).value);
    }
  }

  /** None of a network's addresses is in use. */
  ghost predicate Unused(s: Space, n: Net)
    requires Proper(n)
  {
    forall version, a | Contains(n, version, a) :: !InUse(s, version, a)
  }

  lemma ClearIsUnused(s: Space, n: Net)
    requires Proper(n)
    ensures Clear(n, Known(s)) <==> Unused(s, n)
  {
    hide Known, Contains, InUse, Overlaps;
    if Clear(n, Known(s)) {
      forall version, a | Contains(n, version, a) ensures !InUse(s, version, a) {
        KnownHolds(s, version, a);
        if m :| m in Known(s) && Contains(m, version, a) {
          OverlapIsSharing(n, m);
        }
      }
    } else {
      var m :| m in Known(s) && Overlaps(n, m);
      OverlapIsSharing(n, m);
      var version, a :| Contains(n, version, a) && Contains(m, version, a);
      KnownHolds(s, version, a);
    }
  }

  // ---------- the four requests ----------

  /** A label, or the name it stands for. */
  function Titled(title: string, name: string): string {
    if title == "" then name else title
  }

  /**
   A zone is added if and only if the interface is free, the subnet parses and none of its addresses is
   in use; it comes last, with its interface, its label and that network. Otherwise nothing changes.
   */
  ghost predicate AddsZone(s: Space, iface: string, title: string, subnet: Subnet, free: set<string>, t: Space, reply: Reply) {
    && (reply == Done <==> iface in free && Parse(subnet).Some? && Unused(s, Parse(subnet).value))
    && (reply == Done ==>
          && t.tunnels == s.tunnels && |t.zones| == |s.zones| + 1 && t.zones[..|s.zones|] == s.zones
          && var z := t.zones[|s.zones|]; z.iface == iface && z.title == Titled(title, iface) && Parse(z.subnet) == Parse(subnet))
    && (reply != Done ==>
          && t == s && (reply == Refused("interface") <==> iface !in free)
          && (reply == Refused("subnet") <==> iface in free && Parse(subnet).None?)
          && reply in {Refused("interface"), Refused("subnet"), Refused("overlap")})
  }

  lemma ZoneIsAdded(s: Space, iface: string, title: string, subnet: Subnet, free: set<string>)
    ensures var (t, reply) := Apply(s, Request.AddZone(iface, title, subnet, free));
            AddsZone(s, iface, title, subnet, free, t, reply)
  {
    hide Parse, Known, Clear, Unused;
    if Parse(subnet).Some? {
      ClearIsUnused(s, Parse(subnet).value);
      CanonicalParses(Parse(subnet).value);
    }
  }

  /** A zone at a valid index goes; those before it stay and those behind it move up by one. */
  ghost predicate DropsZone(s: Space, index: int, t: Space, reply: Reply) {
    && t.tunnels == s.tunnels && (reply == Done <==> 0 <= index < |s.zones|) && (reply != Done ==> reply == Ignored && t == s)
    && (reply == Done ==>
          && |t.zones| == |s.zones| - 1
          && forall i | 0 <= i < |t.zones| :: t.zones[i] == s.zones[if i < index then i else i + 1])
  }

  lemma ZoneIsDropped(s: Space, index: int)
    ensures var (t, reply) := Apply(s, Request.DeleteZone(index)); DropsZone(s, index, t, reply)
  {
  }

  /**
   A tunnel is added if and only if its name is 1 to 15 letters, digits, underscores or hyphens and no
   tunnel's or interface's yet, its port is one and no tunnel's yet, every stored tunnel's subnet parses,
   and its own does, with no address in use; it comes last. Otherwise nothing changes.
   */
  ghost predicate AddsTunnel(s: Space, name: string, title: string, port: int, subnet: Subnet, links: set<string>, t: Space, reply: Reply) {
    && (reply == Done <==>
          && 1 <= |name| <= 15
          && (forall c | c in name :: 'a' <= c <= 'z' || 'A' <= c <= 'Z' || '0' <= c <= '9' || c == '_' || c == '-')
          && name !in links && 1 <= port <= 65535
          && (forall x | x in s.tunnels :: x.name != name && x.port != port && Parse(x.subnet).Some?)
          && Parse(subnet).Some? && Unused(s, Parse(subnet).value))
    && (reply == Done ==>
          && t.zones == s.zones && |t.tunnels| == |s.tunnels| + 1 && t.tunnels[..|s.tunnels|] == s.tunnels
          && var x := t.tunnels[|s.tunnels|];
          x.name == name && x.title == Titled(title, name) && x.port == port && Parse(x.subnet) == Parse(subnet))
    && (reply != Done ==> t == s && (reply.Refused? || reply == Raised))
    && (reply == Raised ==> exists x :: x in s.tunnels && Parse(x.subnet).None?)
  }

  lemma TunnelIsAdded(s: Space, name: string, title: string, port: int, subnet: Subnet, links: set<string>)
    ensures var (t, reply) := Apply(s, Request.AddTunnel(name, title, port, subnet, links));
            AddsTunnel(s, name, title, port, subnet, links, t, reply)
  {
    hide Parse, Known, Clear, Unused;
    NameTaken(s.tunnels, name);
    if Parse(subnet).Some? {
      ClearIsUnused(s, Parse(subnet).value);
      CanonicalParses(Parse(subnet).value);
    }
  }

  lemma NameTaken(tunnels: seq<Tunnel>, name: string)
    ensures name in Names(tunnels) <==> exists x :: x in tunnels && x.name == name
  {
  }

  /** `kept` are the places, in order, of all tunnels without that name. */
  predicate KeepsOthers(tunnels: seq<Tunnel>, name: string, kept: seq<nat>) {
    && (forall i, j | 0 <= i < j < |kept| :: kept[i] < kept[j])
    && (forall i | 0 <= i < |kept| :: kept[i] < |tunnels|)
    && forall n: nat | n < |tunnels| :: n in kept <==> tunnels[n].name != name
  }

  /** The tunnels left are those at their places. */
  predicate LeftAt(tunnels: seq<Tunnel>, kept: seq<nat>, left: seq<Tunnel>) {
    |left| == |kept| && forall i | 0 <= i < |kept| :: kept[i] < |tunnels| && left[i] == tunnels[kept[i]]
  }

  /** All tunnels of a name go; the others stay, in order. */
  ghost predicate DropsTunnels(s: Space, name: string, t: Space, reply: Reply) {
    && t.zones == s.zones && (reply == Done <==> exists x :: x in s.tunnels && x.name == name)
    && (reply != Done ==> reply == Ignored && t == s)
    && exists kept :: KeepsOthers(s.tunnels, name, kept) && LeftAt(s.tunnels, kept, t.tunnels)
  }

  lemma KeepsNext(front: seq<Tunnel>, last: Tunnel, name: string, before: seq<nat>)
    requires KeepsOthers(front, name, before)
    ensures KeepsOthers(front + [last], name, if last.name == name then before else before + [|front|])
  {
    var tunnels, kept := front + [last], if last.name == name then before else before + [|front|];
    forall n: nat | n < |tunnels| ensures n in kept <==> tunnels[n].name != name {
      assert n in kept <==> n in before || (last.name != name && n == |front|);
    }
  }

  lemma LeftNext(front: seq<Tunnel>, last: Tunnel, kept: seq<nat>, left: seq<Tunnel>)
    requires LeftAt(front, kept, left)
    ensures LeftAt(front + [last], kept, left) && LeftAt(front + [last], kept + [|front|], left + [last])
  {
  }

  lemma {:induction false} WithoutKeeps(tunnels: seq<Tunnel>, name: string) returns (kept: seq<nat>)
    ensures KeepsOthers(tunnels, name, kept) && LeftAt(tunnels, kept, Without(tunnels, name))
  {
    hide Without;
    kept := [];
    WithoutNone(name);
    if tunnels != [] {
      hide KeepsOthers, LeftAt;
      var front, last := tunnels[..|tunnels| - 1], tunnels[|tunnels| - 1];
      var before := WithoutKeeps(front, name);
      assert front + [last] == tunnels;
      WithoutNext(front, last, name);
      KeepsNext(front, last, name, before);
      LeftNext(front, last, before, Without(front, name));
      kept := if last.name == name then before else before + [|front|];
      assert Without(front, name) + [] == Without(front, name);
    }
  }

  lemma {:induction false} WithoutAbsent(tunnels: seq<Tunnel>, name: string)
    requires forall x | x in tunnels :: x.name != name
    ensures Without(tunnels, name) == tunnels
  {
    if tunnels != [] { WithoutAbsent(tunnels[1..], name); }
  }

  lemma TunnelsAreDropped(s: Space, name: string)
    ensures var (t, reply) := Apply(s, Request.DeleteTunnel(name)); DropsTunnels(s, name, t, reply)
  {
    hide Without, KeepsOthers, LeftAt;
    NameTaken(s.tunnels, name);
    var kept := WithoutKeeps(s.tunnels, name);
    if name !in Names(s.tunnels) { WithoutAbsent(s.tunnels, name); }
  }

  // ---------- what an added zone is labelled ----------

  /** Every address of an added zone is labelled with it, and only the labels of its addresses change. */
  lemma AddedZoneIsLabelled(s: Space, iface: string, title: string, subnet: Subnet, free: set<string>, version: nat, a: nat)
    requires Safe(s) && Apply(s, Request.AddZone(iface, title, subnet, free)).1 == Done
    ensures Parse(subnet).Some?
    ensures var t := Apply(s, Request.AddZone(iface, title, subnet, free)).0;
            Lookup(LabelledNetworks(t), version, a)
            == if Contains(Parse(subnet).value, version, a) then Some(Titled(title, iface)) else Lookup(LabelledNetworks(s), version, a)
  {
    hide Parse, Known, Contains, Unused, Clear;
    var t := Apply(s, Request.AddZone(iface, title, subnet, free)).0;
    var n := Parse(subnet).value;
    var z := Zone(iface, Titled(title, iface), Canonical(n));
    CanonicalParses(n);
    LabelsOfAppend(s.zones, [z]);
    assert [z][1..] == [] && ZoneLabels([z]) == [(z.title, n)];
    var ls := LabelledNetworks(s);
    assert LabelledNetworks(t) == ls + [(z.title, n)];
    LookupOfAppend(ls, (z.title, n), version, a);
    if Contains(n, version, a) && Lookup(ls, version, a).Some? {
      LookupFinds(ls, version, a);
      var l :| l in ls && Contains(l.1, version, a);
      var i := OwnerOf(s, l);
      OverlapIsSharing(n, l.1);
      assert Known(s)[i] in Known(s);
      assert false by { ClearMeans(n, Known(s), l.1); }
    }
  }

  /** The builtin networks keep their labels, whatever is configured. */
  lemma BuiltinsAreLabelled(s: Space, a: nat)
    ensures a / 256 == 0xC0A85F ==> Lookup(LabelledNetworks(s), 4, a) == Some("LAN")
    ensures a / 256 == 0xC0A85A ==> Lookup(LabelledNetworks(s), 4, a) == Some("DMZ")
  {
    hide Contains;
    BuiltinAddresses(4, a);
    var ls := LabelledNetworks(s);
    assert ls[0] == ("LAN", LAN) && ls[1] == ("DMZ", DMZ) && ls[1..][0] == ls[1];
  }

  lemma ClearMeans(n: Net, nets: seq<Net>, m: Net)
    requires Proper(n) && AllProper(nets) && Clear(n, nets) && m in nets
    ensures !Overlaps(n, m)
  {
  }

  lemma {:induction false} LabelsOfAppend(a: seq<Zone>, b: seq<Zone>)
    ensures ZoneLabels(a + b) == ZoneLabels(a) + ZoneLabels(b)
  {
    hide Parse;
    if a == [] {
      assert a + b == b;
    } else {
      assert (a + b)[1..] == a[1..] + b;
      LabelsOfAppend(a[1..], b);
    }
  }

  lemma {:induction false} LookupOfAppend(ls: seq<Labelled>, l: Labelled, version: nat, a: nat)
    requires (forall k | k in ls :: Proper(k.1)) && Proper(l.1)
    ensures forall k | k in ls + [l] :: Proper(k.1)
    ensures Lookup(ls + [l], version, a)
         == if Lookup(ls, version, a).Some? then Lookup(ls, version, a)
            else if Contains(l.1, version, a) then Some(l.0) else None
  {
    hide Contains, Proper;
    if ls == [] {
      assert [l][1..] == [];
    } else {
      assert (ls + [l])[1..] == ls[1..] + [l];
      LookupOfAppend(ls[1..], l, version, a);
    }
  }
}
