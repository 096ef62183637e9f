/** The lists of zones and tunnels as the router's routes update them. */
module AddressRouter {
  import opened Text
  import opened Networks
  import opened AddressSpace
  import opened AddressRequests

  /** The lists as the routes update them. */
  class Router {
    var zones: seq<Zone>
    var tunnels: seq<Tunnel>

    ghost function View(): Space
      reads this
    {
      Space(zones, tunnels)
    }

    method ParseNets(subnets: seq<Subnet>) returns (nets: seq<Net>)
      ensures nets == Nets(subnets)
    {
      hide Parse, Nets;
      nets := [];
      NoNets();
      for i := 0 to |subnets|
        invariant nets == Nets(subnets[..i])
      {
        NextNet(subnets[..i], subnets[i]);
        assert subnets[..i] + [subnets[i]] == subnets[..i + 1];
        var n := Parse(subnets[i]);
        if n.Some? {
          nets := nets + [n.value];
        }
      }
      assert subnets[..|subnets|] == subnets;
    }

    method CollectNets() returns (zoneNets: seq<Net>, tunnelNets: seq<Net>)
      ensures zoneNets == ZoneNets(zones) && tunnelNets == TunnelNets(tunnels)
    {
      zoneNets := ParseNets(ZoneSubnets(zones));
      tunnelNets := ParseNets(TunnelSubnets(tunnels));
    }

    method AddZone(iface: string, title: string, subnet: Subnet, free: set<string>) returns (reply: Reply)
      modifies this
      ensures (View(), reply) == Apply(old(View()), Request.AddZone(iface, title, subnet, free))
      ensures AddsZone(old(View()), iface, title, subnet, free, View(), reply)
    {
      hide AddsZone;
      ZoneIsAdded(View(), iface, title, subnet, free);
      var zoneNets, tunnelNets := CollectNets();
      BuiltinsAreProper();
      var known := [LAN, DMZ] + zoneNets + tunnelNets;
      var network := Parse(subnet);
      if iface !in free {
        reply := Refused("interface");
      } else if network.None? {
        reply := Refused("subnet");
      } else if exists n :: n in known && Overlaps(network.value, n) {
        reply := Refused("overlap");
      } else {
        zones := zones + [Zone(iface, if title == "" then iface else title, Canonical(network.value))];
        reply := Done;
      }
    }

    method DeleteZone(index: int) returns (reply: Reply)
      modifies this
      ensures (View(), reply) == Apply(old(View()), Request.DeleteZone(index))
      ensures DropsZone(old(View()), index, View(), reply)
    {
      hide DropsZone;
      ZoneIsDropped(View(), index);
      if 0 <= index < |zones| {
        zones := zones[..index] + zones[index + 1..];
        reply := Done;
      } else {
        reply := Ignored;
      }
    }

    method AddTunnel(name: string, title: string, port: int, subnet: Subnet, links: set<string>) returns (reply: Reply)
      modifies this
      ensures (View(), reply) == Apply(old(View()), Request.AddTunnel(name, title, port, subnet, links))
      ensures AddsTunnel(old(View()), name, title, port, subnet, links, View(), reply)
    {
      hide AddsTunnel;
      TunnelIsAdded(View(), name, title, port, subnet, links);
      var network := Parse(subnet);
      if !TunnelName(name) {
        return Refused("name");
      } else if name in Names(tunnels) {
        return Refused("exists");
      } else if name in links - Names(tunnels) {
        return Refused("link");
      } else if network.None? {
        return Refused("subnet");
      } else if !(1 <= port <= 65535) {
        return Refused("port");
      } else if exists t :: t in tunnels && Parse(t.subnet).None? {
        return Raised;
      }
      var zoneNets, tunnelNets := CollectNets();
      BuiltinsAreProper();
      var known := [LAN, DMZ] + zoneNets + tunnelNets;
      if exists n :: n in known && Overlaps(network.value, n) {
        reply := Refused("overlap");
      } else if exists t :: t in tunnels && t.port == port {
        reply := Refused("port used");
      } else {
        tunnels := tunnels + [Tunnel(name, if title == "" then name else title, port, Canonical(network.value))];
        reply := Done;
      }
    }

    method DeleteTunnel(name: string) returns (reply: Reply)
      modifies this
      ensures (View(), reply) == Apply(old(View()), Request.DeleteTunnel(name))
      ensures DropsTunnels(old(View()), name, View(), reply)
    {
      hide Without, DropsTunnels;
      TunnelsAreDropped(View(), name);
      if name !in Names(tunnels) {
        return Ignored;
      }
      var kept := [];
      WithoutNone(name);
      for i := 0 to |tunnels|
        invariant View() == old(View()) && kept == Without(tunnels[..i], name)
      {
        WithoutNext(tunnels[..i], tunnels[i], name);
        assert tunnels[..i] + [tunnels[i]] == tunnels[..i + 1];
        if tunnels[i].name != name {
          kept := kept + [tunnels[i]];
        }
      }
      assert tunnels[..|tunnels|] == tunnels;
      tunnels := kept;
      reply := Done;
    }
  }
}
