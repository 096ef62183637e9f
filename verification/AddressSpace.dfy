/** The router's shared address space: builtin zones, configured zones and VPN tunnels. */
module AddressSpace {
  import opened Text
  import opened Networks

  datatype Zone = Zone(iface: string, title: string, subnet: Subnet)

  datatype Tunnel = Tunnel(name: string, title: string, port: int, subnet: Subnet)

  datatype Space = Space(zones: seq<Zone>, tunnels: seq<Tunnel>)

  datatype Reply = Done | Refused(reason: string) | Raised | Ignored

  /** 192.168.95.0/24 and 192.168.90.0/24. */
  const LAN := Net(4, 0xC0A8_5F00, 24)
  const DMZ := Net(4, 0xC0A8_5A00, 24)

  lemma BuiltinsAreProper()
    ensures Proper(LAN) && Proper(DMZ) && !Overlaps(LAN, DMZ)
  {
    assert Pow2(8) == 256 by { assert Pow2(4) == 16; Pow2Splits(4, 8); }
  }

  ghost predicate AllProper(nets: seq<Net>) {
    forall n | n in nets :: Proper(n)
  }

  // ---------- which networks are in use ----------

  /** The networks of the subnets that parse; the others are skipped. */
  function Nets(subnets: seq<Subnet>): (nets: seq<Net>)
    ensures AllProper(nets)
  {
    if subnets == [] then []
    else Parsed(subnets[0]) + Nets(subnets[1..])
  }

  function Parsed(subnet: Subnet): (nets: seq<Net>)
    ensures AllProper(nets)
  {
    match Parse(subnet) case Some(n) => [n] case None => []
  }

  lemma NoNets()
    ensures Nets([]) == []
  {
  }

  lemma NextNet(subnets: seq<Subnet>, next: Subnet)
    ensures Nets(subnets + [next]) == Nets(subnets) + Parsed(next)
  {
    hide Parsed;
    NetsOfAppend(subnets, [next]);
    assert Nets([next]) == Parsed(next) + Nets([]);
  }

  function ZoneSubnets(zones: seq<Zone>): seq<Subnet> {
    seq(|zones|, i requires 0 <= i < |zones| => zones[i].subnet)
  }

  function TunnelSubnets(tunnels: seq<Tunnel>): seq<Subnet> {
    seq(|tunnels|, i requires 0 <= i < |tunnels| => tunnels[i].subnet)
  }

  function ZoneNets(zones: seq<Zone>): (nets: seq<Net>)
    ensures AllProper(nets)
  {
    Nets(ZoneSubnets(zones))
  }

  function TunnelNets(tunnels: seq<Tunnel>): (nets: seq<Net>)
    ensures AllProper(nets)
  {
    Nets(TunnelSubnets(tunnels))
  }

  lemma ZoneNetsCons(zones: seq<Zone>)
    requires zones != []
    ensures ZoneNets(zones) == Parsed(zones[0].subnet) + ZoneNets(zones[1..])
  {
    assert ZoneSubnets(zones)[1..] == ZoneSubnets(zones[1..]);
  }

  lemma TunnelNetsCons(tunnels: seq<Tunnel>)
    requires tunnels != []
    ensures TunnelNets(tunnels) == Parsed(tunnels[0].subnet) + TunnelNets(tunnels[1..])
  {
    assert TunnelSubnets(tunnels)[1..] == TunnelSubnets(tunnels[1..]);
  }

  function Known(s: Space): (nets: seq<Net>)
    ensures AllProper(nets)
  {
    BuiltinsAreProper();
    [LAN, DMZ] + ZoneNets(s.zones) + TunnelNets(s.tunnels)
  }

  predicate Clear(n: Net, nets: seq<Net>)
    requires Proper(n) && AllProper(nets)
  {
    forall m | m in nets :: !Overlaps(n, m)
  }

  ghost predicate Disjoint(nets: seq<Net>)
    requires AllProper(nets)
  {
    forall i, j | 0 <= i < j < |nets| :: !Overlaps(nets[i], nets[j])
  }

  // ---------- the four operations ----------

  predicate NameChar(c: char) {
    'a' <= c <= 'z' || 'A' <= c <= 'Z' || '0' <= c <= '9' || c == '_' || c == '-'
  }

  predicate TunnelName(name: string) {
    1 <= |name| <= 15 && forall c | c in name :: NameChar(c)
  }

  function Names(ts: seq<Tunnel>): set<string> {
    set t | t in ts :: t.name
  }

  function Without(ts: seq<Tunnel>, name: string): seq<Tunnel> {
    if ts == [] then [] else (if ts[0].name == name then [] else [ts[0]]) + Without(ts[1..], name)
  }

  lemma WithoutNone(name: string)
    ensures Without([], name) == []
  {
  }

  lemma {:induction false} WithoutNext(ts: seq<Tunnel>, next: Tunnel, name: string)
    ensures Without(ts + [next], name) == Without(ts, name) + if next.name == name then [] else [next]
  {
    if ts == [] {
      assert [next][1..] == [];
    } else {
      assert (ts + [next])[1..] == ts[1..] + [next];
      WithoutNext(ts[1..], next, name);
    }
  }

  /** One request; the interfaces the system has free, or has at all, come with it. */
  datatype Request =
    | AddZone(iface: string, title: string, subnet: Subnet, free: set<string>)
    | DeleteZone(index: int)
    | AddTunnel(name: string, title: string, port: int, subnet: Subnet, links: set<string>)
    | DeleteTunnel(victim: string)

  function Apply(s: Space, r: Request): (Space, Reply) {
    match r
    case AddZone(iface, title, subnet, free) =>
      if iface !in free then (s, Refused("interface"))
      else if Parse(subnet).None? then (s, Refused("subnet"))
      else
        var n := Parse(subnet).value;
        if !Clear(n, Known(s)) then (s, Refused("overlap"))
        else (s.(zones := s.zones + [Zone(iface, if title == "" then iface else title, Canonical(n))]), Done)
    case DeleteZone(i) =>
      if 0 <= i < |s.zones| then (s.(zones := s.zones[..i] + s.zones[i + 1..]), Done) else (s, Ignored)
    case AddTunnel(name, title, port, subnet, links) =>
      if !TunnelName(name) then (s, Refused("name"))
      else if name in Names(s.tunnels) then (s, Refused("exists"))
      else if name in links - Names(s.tunnels) then (s, Refused("link"))
      else if Parse(subnet).None? then (s, Refused("subnet"))
      else if !(1 <= port <= 65535) then (s, Refused("port"))
      else if exists t :: t in s.tunnels && Parse(t.subnet).None? then (s, Raised)
      else
        var n := Parse(subnet).value;
        if !Clear(n, Known(s)) then (s, Refused("overlap"))
        else if exists t :: t in s.tunnels && t.port == port then (s, Refused("port used"))
        else (s.(tunnels := s.tunnels + [Tunnel(name, if title == "" then name else title, port, Canonical(n))]), Done)
    case DeleteTunnel(name) =>
      if name in Names(s.tunnels) then (s.(tunnels := Without(s.tunnels, name)), Done) else (s, Ignored)
  }

  // ---------- safety over whole runs ----------

  /** No two networks in use share an address; tunnels have distinct names and ports. */
  ghost predicate Safe(s: Space) {
    && Disjoint(Known(s))
    && (forall i, j | 0 <= i < j < |s.tunnels| :: s.tunnels[i].name != s.tunnels[j].name && s.tunnels[i].port != s.tunnels[j].port)
  }

  function Run(s: Space, requests: seq<Request>): Space
    decreases |requests|
  {
    if requests == [] then s else Run(Apply(s, requests[0]).0, requests[1..])
  }

  lemma InsertDisjoint(a: seq<Net>, n: Net, b: seq<Net>)
    requires AllProper(a + b) && Proper(n) && Disjoint(a + b) && Clear(n, a + b)
    ensures AllProper(a + [n] + b) && Disjoint(a + [n] + b)
  {
    var all, kept := a + [n] + b, a + b;
    assert forall m | m in all :: m == n || m in kept;
    forall i, j | 0 <= i < j < |all| ensures !Overlaps(all[i], all[j]) {
      var i', j' := if i < |a| then i else i - 1, if j < |a| then j else j - 1;
      if i != |a| && j != |a| {
        assert all[i] == kept[i'] && all[j] == kept[j'];
      } else if i == |a| {
        assert all[j] == kept[j'] && kept[j'] in kept;
      } else {
        assert all[i] == kept[i'] && kept[i'] in kept;
        OverlapsIsSymmetric(n, all[i]);
      }
    }
  }

  lemma RemoveDisjoint(a: seq<Net>, x: seq<Net>, b: seq<Net>)
    requires AllProper(a + x + b) && Disjoint(a + x + b)
    ensures AllProper(a + b) && Disjoint(a + b)
  {
    var all, kept := a + x + b, a + b;
    forall i | 0 <= i < |kept| ensures kept[i] == all[if i < |a| then i else i + |x|] {}
    assert forall m | m in kept :: m in all;
  }

  lemma {:induction false} NetsOfAppend(a: seq<Subnet>, b: seq<Subnet>)
    ensures Nets(a + b) == Nets(a) + Nets(b)
  {
    hide Parsed;
    if a == [] {
      assert a + b == b;
    } else {
      assert (a + b)[1..] == a[1..] + b;
      NetsOfAppend(a[1..], b);
    }
  }

  lemma ZoneNetsOfAppend(a: seq<Zone>, b: seq<Zone>)
    ensures ZoneNets(a + b) == ZoneNets(a) + ZoneNets(b)
  {
    hide Nets;
    assert ZoneSubnets(a + b) == ZoneSubnets(a) + ZoneSubnets(b);
    NetsOfAppend(ZoneSubnets(a), ZoneSubnets(b));
  }

  lemma TunnelNetsOfAppend(a: seq<Tunnel>, b: seq<Tunnel>)
    ensures TunnelNets(a + b) == TunnelNets(a) + TunnelNets(b)
  {
    hide Nets;
    assert TunnelSubnets(a + b) == TunnelSubnets(a) + TunnelSubnets(b);
    NetsOfAppend(TunnelSubnets(a), TunnelSubnets(b));
  }

  /** Deleting tunnels leaves a disjoint rest. */
  lemma {:induction false} WithoutDisjoint(before: seq<Net>, ts: seq<Tunnel>, name: string)
    requires AllProper(before) && Disjoint(before + TunnelNets(ts))
    ensures Disjoint(before + TunnelNets(Without(ts, name)))
    decreases |ts|
  {
    if ts != [] {
      hide TunnelNets, Parsed;
      var first := Parsed(ts[0].subnet);
      var rest := Without(ts[1..], name);
      TunnelNetsCons(ts);
      assert before + TunnelNets(ts) == before + first + TunnelNets(ts[1..]);
      if ts[0].name == name {
        RemoveDisjoint(before, first, TunnelNets(ts[1..]));
        WithoutDisjoint(before, ts[1..], name);
        assert Without(ts, name) == rest;
      } else {
        WithoutDisjoint(before + first, ts[1..], name);
        assert Without(ts, name) == [ts[0]] + rest && ([ts[0]] + rest)[1..] == rest;
        TunnelNetsCons([ts[0]] + rest);
        assert before + TunnelNets([ts[0]] + rest) == before + first + TunnelNets(rest);
      }
    }
  }

  lemma {:induction false} WithoutIsSubsequence(ts: seq<Tunnel>, name: string)
    requires forall i, j | 0 <= i < j < |ts| :: ts[i].name != ts[j].name && ts[i].port != ts[j].port
    ensures var w := Without(ts, name);
            (forall t | t in w :: t in ts && t.name != name)
            && forall i, j | 0 <= i < j < |w| :: w[i].name != w[j].name && w[i].port != w[j].port
  {
    if ts != [] {
      WithoutIsSubsequence(ts[1..], name);
      forall t | t in ts[1..] ensures t.name != ts[0].name && t.port != ts[0].port {
        var k :| 0 <= k < |ts[1..]| && t == ts[1..][k];
        assert t == ts[k + 1];
      }
    }
  }

  lemma AddedZoneIsSafe(s: Space, n: Net, iface: string, title: string)
    requires Safe(s) && Proper(n) && Clear(n, Known(s))
    ensures Safe(s.(zones := s.zones + [Zone(iface, title, Canonical(n))]))
  {
    hide Clear;
    BuiltinsAreProper();
    var z := Zone(iface, title, Canonical(n));
    var head, tail := [LAN, DMZ], TunnelNets(s.tunnels);
    CanonicalParses(n);
    ZoneNetsOfAppend(s.zones, [z]);
    ZoneNetsCons([z]);
    assert [z][1..] == [] && ZoneNets([]) == [] && Parsed(z.subnet) == [n];
    InsertDisjoint(head + ZoneNets(s.zones), n, tail);
    assert Known(s.(zones := s.zones + [z])) == head + ZoneNets(s.zones) + [n] + tail;
  }

  lemma AroundIndex<T>(s: seq<T>, i: nat)
    requires i < |s|
    ensures s == s[..i] + [s[i]] + s[i + 1..]
  {
  }

  lemma ZoneNetsWithout(zones: seq<Zone>, i: nat)
    requires i < |zones|
    ensures ZoneNets(zones) == ZoneNets(zones[..i]) + ZoneNets([zones[i]]) + ZoneNets(zones[i + 1..])
    ensures ZoneNets(zones[..i] + zones[i + 1..]) == ZoneNets(zones[..i]) + ZoneNets(zones[i + 1..])
  {
    hide ZoneNets;
    AroundIndex(zones, i);
    ZoneNetsOfThree(zones[..i], [zones[i]], zones[i + 1..]);
    ZoneNetsOfAppend(zones[..i], zones[i + 1..]);
  }

  lemma ZoneNetsOfThree(a: seq<Zone>, z: seq<Zone>, b: seq<Zone>)
    ensures ZoneNets(a + z + b) == ZoneNets(a) + ZoneNets(z) + ZoneNets(b)
  {
    hide ZoneNets;
    ZoneNetsOfAppend(a + z, b);
    ZoneNetsOfAppend(a, z);
  }

  lemma DropMiddle(head: seq<Net>, a: seq<Net>, x: seq<Net>, b: seq<Net>, tail: seq<Net>)
    requires AllProper(head + (a + x + b) + tail) && Disjoint(head + (a + x + b) + tail)
    ensures AllProper(head + (a + b) + tail) && Disjoint(head + (a + b) + tail)
  {
    assert head + (a + x + b) + tail == (head + a) + x + (b + tail);
    RemoveDisjoint(head + a, x, b + tail);
    assert head + (a + b) + tail == (head + a) + (b + tail);
  }

  lemma DeletedZoneIsSafe(s: Space, i: nat)
    requires Safe(s) && i < |s.zones|
    ensures Safe(s.(zones := s.zones[..i] + s.zones[i + 1..]))
  {
    hide ZoneNets, TunnelNets;
    BuiltinsAreProper();
    ZoneNetsWithout(s.zones, i);
    DropMiddle([LAN, DMZ], ZoneNets(s.zones[..i]), ZoneNets([s.zones[i]]), ZoneNets(s.zones[i + 1..]), TunnelNets(s.tunnels));
  }

  lemma ZoneStepIsSafe(s: Space, r: Request)
    requires Safe(s) && (r.AddZone? || r.DeleteZone?)
    ensures Safe(Apply(s, r).0)
  {
    if Apply(s, r).0 != s {
      if r.AddZone? {
        AddedZoneIsSafe(s, Parse(r.subnet).value, r.iface, if r.title == "" then r.iface else r.title);
      } else {
        DeletedZoneIsSafe(s, r.index);
      }
    }
  }

  lemma AddedTunnelIsSafe(s: Space, n: Net, name: string, title: string, port: int)
    requires Safe(s) && Proper(n) && Clear(n, Known(s))
    requires name !in Names(s.tunnels) && forall t | t in s.tunnels :: t.port != port
    ensures Safe(s.(tunnels := s.tunnels + [Tunnel(name, title, port, Canonical(n))]))
  {
    hide Clear, ZoneNets;
    BuiltinsAreProper();
    var v := Tunnel(name, title, port, Canonical(n));
    CanonicalParses(n);
    TunnelNetsOfAppend(s.tunnels, [v]);
    TunnelNetsCons([v]);
    assert [v][1..] == [] && TunnelNets([]) == [] && Parsed(v.subnet) == [n];
    assert Known(s) + [] == Known(s);
    InsertDisjoint(Known(s), n, []);
    assert Known(s.(tunnels := s.tunnels + [v])) == Known(s) + [n] + [];
    forall i | 0 <= i < |s.tunnels| ensures s.tunnels[i].name != name && s.tunnels[i].port != port {
      assert s.tunnels[i] in s.tunnels;
    }
  }

  lemma WithoutTunnelIsSafe(s: Space, name: string)
    requires Safe(s)
    ensures Safe(s.(tunnels := Without(s.tunnels, name)))
  {
    hide ZoneNets;
    BuiltinsAreProper();
    WithoutDisjoint([LAN, DMZ] + ZoneNets(s.zones), s.tunnels, name);
    WithoutIsSubsequence(s.tunnels, name);
  }

  lemma TunnelStepIsSafe(s: Space, r: Request)
    requires Safe(s) && (r.AddTunnel? || r.DeleteTunnel?)
    ensures Safe(Apply(s, r).0)
  {
    hide Safe, Known, Clear, Names, Without;
    if Apply(s, r).0 != s {
      match r {
        case AddTunnel(name, title, port, subnet, _) =>
          AddedTunnelIsSafe(s, Parse(subnet).value, name, if title == "" then name else title, port);
        case DeleteTunnel(name) =>
          WithoutTunnelIsSafe(s, name);
      }
    }
  }

  /** Every run of additions and deletions keeps the address space disjoint. */
  lemma {:induction false} RunIsSafe(s: Space, requests: seq<Request>)
    requires Safe(s)
    ensures Safe(Run(s, requests))
    decreases |requests|
  {
    if requests != [] {
      var r := requests[0];
      if r.AddZone? || r.DeleteZone? { ZoneStepIsSafe(s, r); } else { TunnelStepIsSafe(s, r); }
      RunIsSafe(Apply(s, r).0, requests[1..]);
    }
  }

  // ---------- labels ----------

  /** A labelled zone network. */
  type Labelled = (string, Net)

  function ZoneLabels(zones: seq<Zone>): (ls: seq<Labelled>)
    ensures forall l | l in ls :: Proper(l.1)
    ensures |ls| == |ZoneNets(zones)| && forall i | 0 <= i < |ls| :: ls[i].1 == ZoneNets(zones)[i]
  {
    if zones == [] then []
    else
      ZoneNetsCons(zones);
      (match Parse(zones[0].subnet) case Some(n) => [(zones[0].title, n)] case None => []) + ZoneLabels(zones[1..])
  }

  function LabelledNetworks(s: Space): (ls: seq<Labelled>)
    ensures forall l | l in ls :: Proper(l.1)
  {
    BuiltinsAreProper();
    [("LAN", LAN), ("DMZ", DMZ)] + ZoneLabels(s.zones)
  }

  /** The label of the first network that contains an address. */
  function Lookup(ls: seq<Labelled>, version: nat, a: nat): Option<string>
    requires forall l | l in ls :: Proper(l.1)
  {
    if ls == [] then None else if Contains(ls[0].1, version, a) then Some(ls[0].0) else Lookup(ls[1..], version, a)
  }

  lemma {:induction false} LookupFinds(ls: seq<Labelled>, version: nat, a: nat)
    requires forall l | l in ls :: Proper(l.1)
    ensures Lookup(ls, version, a) == None ==> forall l | l in ls :: !Contains(l.1, version, a)
    ensures Lookup(ls, version, a).Some? ==> exists l :: l in ls && Contains(l.1, version, a) && Lookup(ls, version, a) == Some(l.0)
  {
    if ls != [] && !Contains(ls[0].1, version, a) {
      LookupFinds(ls[1..], version, a);
      assert forall l :: l in ls <==> l == ls[0] || l in ls[1..];
    } else if ls != [] {
      assert ls[0] in ls;
    }
  }

  lemma AtMostOneContains(nets: seq<Net>, i: nat, j: nat, version: nat, a: nat)
    requires AllProper(nets) && Disjoint(nets) && i < |nets| && j < |nets|
    requires Contains(nets[i], version, a) && Contains(nets[j], version, a)
    ensures i == j
  {
    OverlapIsSharing(nets[i], nets[j]);
    OverlapIsSharing(nets[j], nets[i]);
  }

  /** The labels of zones go with the first of the known networks. */
  lemma OwnerOf(s: Space, l: Labelled) returns (i: nat)
    requires l in LabelledNetworks(s)
    ensures i < |Known(s)| && i < |LabelledNetworks(s)| && Known(s)[i] == l.1 && LabelledNetworks(s)[i] == l
  {
    var ls := LabelledNetworks(s);
    i :| 0 <= i < |ls| && ls[i] == l;
    assert Known(s)[i] == ls[i].1;
  }

  /** In a safe state the label of an address does not depend on the order of the zones. */
  lemma LabelIgnoresOrder(s: Space, shuffled: seq<Labelled>, version: nat, a: nat)
    requires Safe(s) && multiset(shuffled) == multiset(LabelledNetworks(s))
    ensures (forall l | l in shuffled :: Proper(l.1))
         && Lookup(shuffled, version, a) == Lookup(LabelledNetworks(s), version, a)
  {
    var ls := LabelledNetworks(s);
    SameMembers(shuffled, ls);
    LookupFinds(ls, version, a);
    LookupFinds(shuffled, version, a);
    if Lookup(ls, version, a).Some? {
      var l :| l in ls && Contains(l.1, version, a) && Lookup(ls, version, a) == Some(l.0);
      var k :| k in shuffled && Contains(k.1, version, a) && Lookup(shuffled, version, a) == Some(k.0);
      var i := OwnerOf(s, l);
      var j := OwnerOf(s, k);
      AtMostOneContains(Known(s), i, j, version, a);
    }
  }

  lemma SameMembers(a: seq<Labelled>, b: seq<Labelled>)
    requires multiset(a) == multiset(b)
    ensures forall l :: l in a <==> l in b
  {
    assert forall l :: l in a <==> l in multiset(a);
    assert forall l :: l in b <==> l in multiset(b);
  }

  /** Over any run from a safe state, an address has one owner and one label. */
  lemma LabelsStayUnambiguous(s: Space, requests: seq<Request>, shuffled: seq<Labelled>, version: nat, a: nat)
    requires Safe(s) && multiset(shuffled) == multiset(LabelledNetworks(Run(s, requests)))
    ensures (forall l | l in shuffled :: Proper(l.1))
         && Lookup(shuffled, version, a) == Lookup(LabelledNetworks(Run(s, requests)), version, a)
    ensures var nets := Known(Run(s, requests));
            forall i, j | 0 <= i < |nets| && 0 <= j < |nets| && Contains(nets[i], version, a) && Contains(nets[j], version, a) :: i == j
  {
    RunIsSafe(s, requests);
    LabelIgnoresOrder(Run(s, requests), shuffled, version, a);
    var nets := Known(Run(s, requests));
    forall i, j | 0 <= i < |nets| && 0 <= j < |nets| && Contains(nets[i], version, a) && Contains(nets[j], version, a)
      ensures i == j
    {
      AtMostOneContains(nets, i, j, version, a);
    }
  }
}
