/** The NAT half and the filter half of a port forward agree. */
module NatAgreement {
  import opened Text
  import opened Firewall
  import opened Kernel
  import opened FirewallMeaning

  /** Whether a forward claims a packet on its way in, before translation. */
  predicate Claims(m: Matchers, f: Forward, p: Packet) {
    && f.enabled
    && m.iface(f.ifaceIn, p.ifaceIn) && m.proto(f.proto, p.proto)
    && (f.src == "" || f.src == "0.0.0.0/0" || m.addr(f.src, p.src))
    && (f.dst != "" ==> m.addr(f.dst, p.dst))
    && m.port(f.extPort, p.dport)
  }

  /** The index of the first enabled forward that claims a packet, or the number of forwards. */
  function FirstClaim(m: Matchers, fs: seq<Forward>, p: Packet): (n: nat)
    ensures n <= |fs|
    ensures n < |fs| ==> Claims(m, fs[n], p)
    ensures forall i | 0 <= i < n :: !Claims(m, fs[i], p)
    decreases |fs|
  {
    if fs == [] || Claims(m, fs[0], p) then 0 else 1 + FirstClaim(m, fs[1..], p)
  }

  /** A target that can be written as `ip:port` and stands for one address and one port. */
  predicate Targetable(m: Matchers, f: Forward) {
    PlainTarget(f) && m.addr(f.targetIp, m.addrOf(f.targetIp)) && m.port(f.targetPort, m.portOf(f.targetPort))
  }

  lemma DnatHolds(m: Matchers, f: Forward, p: Packet)
    requires f.enabled
    ensures HoldAll(m, DnatOpts(f), p, false) == Claims(m, f, p)
  {
    var a: seq<Opt> := [("-i", f.ifaceIn), ("-p", f.proto)];
    var b, c := If(FromSomewhere(f), "-s", f.src), If(f.dst != "", "-d", f.dst);
    assert a == [("-i", f.ifaceIn)] + [("-p", f.proto)];
    HoldSum(m, [("-i", f.ifaceIn)], [("-p", f.proto)], p, false);
    HoldSum(m, a, b, p, false);
    HoldSum(m, a + b, c, p, false);
    HoldSum(m, a + b + c, [("--dport", f.extPort)], p, false);
    HoldIf(m, true, "-i", f.ifaceIn, p, false);
    HoldIf(m, true, "-p", f.proto, p, false);
    HoldIf(m, FromSomewhere(f), "-s", f.src, p, false);
    HoldIf(m, f.dst != "", "-d", f.dst, p, false);
    HoldIf(m, true, "--dport", f.extPort, p, false);
  }

  lemma DnatRedirects(m: Matchers, f: Forward, p: Packet)
    requires f.enabled
    ensures Redirects(m, DnatRule(f), p) == Claims(m, f, p)
  {
    DnatHolds(m, f, p);
  }

  lemma {:induction false} EnabledCons(fs: seq<Forward>)
    requires fs != []
    ensures Enabled(fs) == (if fs[0].enabled then [fs[0]] else []) + Enabled(fs[1..])
  {
    var n := |fs| - 1;
    if n > 0 {
      EnabledCons(fs[..n]);
      assert fs[..n][1..] == fs[1..][..n - 1];
    } else {
      assert fs[..n] == [] && fs[1..] == [];
    }
  }

  lemma FirstDnatCons(m: Matchers, k: ChainRule, more: seq<ChainRule>, p: Packet)
    ensures FirstDnat(m, [k] + more, p) == if Redirects(m, k, p) then 0 else 1 + FirstDnat(m, more, p)
  {
    assert ([k] + more)[1..] == more;
  }

  /** What the first matching PREROUTING rule is: the rule of the first claiming forward. */
  lemma {:induction false} FirstDnatIsFirstClaim(m: Matchers, fs: seq<Forward>, p: Packet)
    ensures var ks := DnatRules(Enabled(fs)); var d := FirstDnat(m, ks, p); var n := FirstClaim(m, fs, p);
            (d < |ks| <==> n < |fs|) && (n < |fs| ==> ks[d] == DnatRule(fs[n]))
    decreases |fs|
  {
    hide HoldAll, DnatRule, Redirects, Claims, FirstDnat;
    if fs == [] {
      NoDnat(m, p);
    } else {
      EnabledCons(fs);
      FirstDnatIsFirstClaim(m, fs[1..], p);
      var f := fs[0];
      if f.enabled {
        DnatRedirects(m, f, p);
        var more := DnatRules(Enabled(fs[1..]));
        assert DnatRules(Enabled(fs)) == [DnatRule(f)] + more;
        FirstDnatCons(m, DnatRule(f), more, p);
      } else {
        DisabledClaimsNothing(m, f, p);
        assert Enabled(fs) == Enabled(fs[1..]);
      }
    }
  }

  lemma NoDnat(m: Matchers, p: Packet)
    ensures FirstDnat(m, [], p) == 0
  {
  }

  lemma DisabledClaimsNothing(m: Matchers, f: Forward, p: Packet)
    requires !f.enabled
    ensures !Claims(m, f, p)
  {
  }

  /** Where a forward sends a packet. */
  function SentTo(m: Matchers, f: Forward, p: Packet): Packet {
    p.(dst := m.addrOf(f.targetIp), dport := m.portOf(f.targetPort))
  }

  /** A printed target reads back if and only if neither half holds a colon. */
  lemma TargetReadsBack(ip: string, port: string)
    ensures Split(ip + ":" + port, ':') == [ip, port] <==> ':' !in ip && ':' !in port
    ensures |Split(ip + ":" + port, ':')| == 2 <==> ':' !in ip && ':' !in port
  {
    var s := ip + ":" + port;
    PartsOfSplit(s, ':');
    assert multiset(s)[':'] == multiset(ip)[':'] + 1 + multiset(port)[':'];
    assert ':' in ip <==> ':' in multiset(ip);
    assert ':' in port <==> ':' in multiset(port);
    if ':' !in ip && ':' !in port {
      var to := [ip, port];
      SplitOfJoin(to, ':');
      assert Join(to, [':']) == s by { assert to[1..] == [port]; }
    }
  }

  predicate PlainTarget(f: Forward) {
    ':' !in f.targetIp && ':' !in f.targetPort
  }

  /** The loaded table translates a packet by the first forward that claims it, if that target reads back. */
  lemma TranslationIsFirstClaim(m: Matchers, fs: seq<Forward>, p: Packet)
    ensures var n := FirstClaim(m, fs, p);
            Translate(m, NatTable(fs), p) == if n < |fs| && PlainTarget(fs[n]) then SentTo(m, fs[n], p) else p
  {
    FirstDnatIsFirstClaim(m, fs, p);
    var n := FirstClaim(m, fs, p);
    if n < |fs| {
      TargetReadsBack(fs[n].targetIp, fs[n].targetPort);
    }
  }

  /** An IPv6 target, which the form accepts, is not read back: its forward translates nothing. */
  lemma Ipv6TargetIsLost(m: Matchers, f: Forward, p: Packet)
    requires f.targetIp == "::1" && Claims(m, f, p)
    ensures |Split(f.targetIp + ":" + f.targetPort, ':')| != 2 && Translate(m, NatTable([f]), p) == p
  {
    hide Split, Translate, NatTable;
    assert f.targetIp[0] == ':';
    TargetReadsBack(f.targetIp, f.targetPort);
    TranslationIsFirstClaim(m, [f], p);
  }

  /**
   The tables agree: a new packet claimed first by a forward that adds its own filter rule is, once
   translated, accepted by FORWARD unless a user rule decides it; an unclaimed packet is left alone.
   */
  lemma TablesAgree(m: Matchers, rules: seq<Rule>, fs: seq<Forward>, p: Packet, budget: bool, depth: nat)
    requires Compilable(rules, fs) && depth > 0 && p.state == "NEW"
    requires var n := FirstClaim(m, fs, p); n < |fs| ==> Targetable(m, fs[n])
    ensures var r := Restore(ApplyText(rules, fs));
            r.Ok? && "nat" in r.value && "filter" in r.value
            && Agree(m, r.value["nat"], r.value["filter"], rules, fs, p, budget, depth)
  {
    ApplyLoads(rules, fs);
    var tables := Restore(ApplyText(rules, fs)).value;
    LoadedTablesAgree(m, tables["nat"], tables["filter"], rules, fs, p, budget, depth);
  }

  /** What agreement of the two tables on a packet means. */
  ghost predicate Agree(m: Matchers, dnat: Table, filter: Table, rules: seq<Rule>, fs: seq<Forward>,
                        p: Packet, budget: bool, depth: nat)
  {
    var n := FirstClaim(m, fs, p);
    var q := if n < |fs| then SentTo(m, fs[n], p) else p;
    var u := FirstMatch(m, AsPrinted(rules), q);
    && Translate(m, dnat, p) == q
    && "FORWARD" in filter.policies
    && (u < |rules| ==> Filter(m, filter, "FORWARD", q, budget, depth) == ByAction(rules[u].action, budget))
    && (u == |rules| && n < |fs| && fs[n].autoFwRule ==>
          Filter(m, filter, "FORWARD", q, budget, depth) == Outcome(Some(Accept), 0))
  }

  lemma LoadedTablesAgree(m: Matchers, dnat: Table, filter: Table, rules: seq<Rule>, fs: seq<Forward>,
                          p: Packet, budget: bool, depth: nat)
    requires Compilable(rules, fs) && depth > 0 && p.state == "NEW"
    requires var n := FirstClaim(m, fs, p); n < |fs| ==> Targetable(m, fs[n])
    requires dnat == NatTable(fs) && filter == FilterTable(rules, fs)
    ensures Agree(m, dnat, filter, rules, fs, p, budget, depth)
  {
    hide Translate, Filter, NatTable, FilterTable, Compilable;
    TranslationIsFirstClaim(m, fs, p);
    var n := FirstClaim(m, fs, p);
    var q := if n < |fs| then SentTo(m, fs[n], p) else p;
    TableMeansPolicy(m, filter, rules, fs, q, budget, depth);
    if n < |fs| && fs[n].autoFwRule {
      assert fs[n] in fs && Admits(m, fs[n], q);
    }
  }

  lemma SelectSnoc(fs: seq<Forward>, f: Forward)
    ensures Enabled(fs + [f]) == Enabled(fs) + (if f.enabled then [f] else [])
    ensures AutoForwards(fs + [f]) == AutoForwards(fs) + (if f.enabled && f.autoFwRule then [f] else [])
  {
    assert (fs + [f])[..|fs|] == fs;
  }

  lemma {:induction false} EnabledForwardsSuffice(fs: seq<Forward>)
    ensures Enabled(Enabled(fs)) == Enabled(fs) && AutoForwards(Enabled(fs)) == AutoForwards(fs)
  {
    if fs != [] {
      var front, last := fs[..|fs| - 1], fs[|fs| - 1];
      EnabledForwardsSuffice(front);
      assert fs == front + [last];
      SelectSnoc(front, last);
      if last.enabled {
        var on := Enabled(front);
        assert Enabled(fs) == on + [last];
        SelectSnoc(on, last);
      } else {
        assert Enabled(fs) == Enabled(front);
        assert AutoForwards(fs) == AutoForwards(front);
      }
    }
  }

  /** Disabled forwards leave no trace in either table. */
  lemma DisabledForwardsAreInert(rules: seq<Rule>, fs: seq<Forward>)
    ensures ApplyText(rules, Enabled(fs)) == ApplyText(rules, fs)
  {
    EnabledForwardsSuffice(fs);
  }
}
