/** The compiled file means the policy the rules stand for, and its two tables agree. */
module FirewallMeaning {
  import opened Text
  import opened Firewall
  import opened Kernel
  import opened TableRoundTrip

  // ---------- what is demanded of the fields ----------

  predicate Blank(t: string) {
    t == "" || Token(t)
  }

  /** Fields that a line can carry: one word each; the comment is never printed. */
  predicate Printable(r: Rule) {
    Token(r.src) && Token(r.dst) && Token(r.proto) && Token(r.action)
    && Blank(r.ifaceIn) && Blank(r.ifaceOut) && Blank(r.dport)
  }

  predicate PrintableForward(f: Forward) {
    Token(f.ifaceIn) && Token(f.extPort) && Token(f.targetIp) && Token(f.targetPort)
    && Blank(f.src) && Blank(f.dst) && (f.proto == "tcp" || f.proto == "udp")
  }

  predicate KnownAction(a: string) {
    a == "ACCEPT" || a == "DROP" || a == "REJECT"
  }

  predicate Compilable(rules: seq<Rule>, fs: seq<Forward>) {
    (forall r | r in rules :: Printable(r) && KnownAction(r.action)) && forall f | f in fs :: PrintableForward(f)
  }

  // ---------- the policy ----------

  predicate Matches(m: Matchers, r: Rule, p: Packet) {
    && (r.proto == "all" || m.proto(r.proto, p.proto))
    && m.addr(r.src, p.src) && m.addr(r.dst, p.dst)
    && (r.ifaceIn == "" || m.iface(r.ifaceIn, p.ifaceIn))
    && (r.ifaceOut == "" || m.iface(r.ifaceOut, p.ifaceOut))
    && (r.dport == "" || m.port(r.dport, p.dport))
  }

  /** What a forward lets through once the packet carries the translated destination. */
  predicate Admits(m: Matchers, f: Forward, p: Packet) {
    && f.enabled && f.autoFwRule
    && m.iface(f.ifaceIn, p.ifaceIn) && m.proto(f.proto, p.proto)
    && (f.src == "" || f.src == "0.0.0.0/0" || m.addr(f.src, p.src))
    && m.addr(f.targetIp, p.dst) && m.port(f.targetPort, p.dport)
  }

  /** The index of the first user rule that matches, or the number of rules. */
  function FirstMatch(m: Matchers, rules: seq<Rule>, p: Packet): (n: nat)
    ensures n <= |rules|
    ensures n < |rules| ==> Matches(m, rules[n], p)
    ensures forall i | 0 <= i < n :: !Matches(m, rules[i], p)
    decreases |rules|
  {
    if rules == [] || Matches(m, rules[0], p) then 0 else 1 + FirstMatch(m, rules[1..], p)
  }

  /** Denials other than of invalid packets are logged when the limiter allows. */
  function Denied(v: Verdict, budget: bool): Outcome {
    Outcome(Some(v), if budget then 1 else 0)
  }

  function ByAction(action: string, budget: bool): Outcome {
    if action == "DROP" then Denied(Drop, budget)
    else if action == "REJECT" then Denied(Reject, budget)
    else Outcome(Some(Accept), 0)
  }

  /** A rule as far as its line says it: the port is printed for tcp and udp only. */
  function Printed(r: Rule): Rule {
    r.(dport := if PrintsPort(r) then r.dport else "")
  }

  function AsPrinted(rules: seq<Rule>): (ps: seq<Rule>)
    ensures |ps| == |rules|
  {
    seq(|rules|, i requires 0 <= i < |rules| => Printed(rules[i]))
  }

  /** The rules whose port, if any, can be printed. */
  predicate PortsPrinted(rules: seq<Rule>) {
    forall r | r in rules :: r.dport == "" || r.proto == "tcp" || r.proto == "udp"
  }

  lemma PrintedIsMeant(rules: seq<Rule>)
    requires PortsPrinted(rules)
    ensures AsPrinted(rules) == rules
  {
    forall i | 0 <= i < |rules| ensures AsPrinted(rules)[i] == rules[i] {
      assert rules[i] in rules;
    }
  }

  /** The documented policy, in order of precedence. */
  ghost function Policy(m: Matchers, rules: seq<Rule>, fs: seq<Forward>, p: Packet, budget: bool): Outcome {
    var n := FirstMatch(m, rules, p);
    if p.state == "ESTABLISHED" || p.state == "RELATED" then Outcome(Some(Accept), 0)
    else if p.state == "INVALID" then Outcome(Some(Drop), 0)
    else if n < |rules| then ByAction(rules[n].action, budget)
    else if exists f :: f in fs && Admits(m, f, p) then Outcome(Some(Accept), 0)
    else if m.addr("192.168.95.0/24", p.src) then Outcome(Some(Accept), 0)
    else Denied(Drop, budget)
  }

  // ---------- the printed rules are readable ----------

  lemma {:induction false} OptsOkSnoc(opts: seq<Opt>, before: seq<Opt>, o: Opt)
    requires OptsOk(opts, before) && MayFollow(o.0, before + opts) && Token(o.1)
    ensures OptsOk(opts + [o], before)
    decreases |opts|
  {
    if opts == [] {
      assert before + opts == before;
    } else {
      assert before + [opts[0]] + opts[1..] == before + opts;
      OptsOkSnoc(opts[1..], before + [opts[0]], o);
      assert (opts + [o])[1..] == opts[1..] + [o];
    }
  }

  /** An option added under a condition keeps the list readable. */
  lemma OptsOkIf(opts: seq<Opt>, c: bool, flag: string, value: string)
    requires OptsOk(opts, []) && (c ==> MayFollow(flag, opts) && Token(value))
    ensures OptsOk(opts + If(c, flag, value), [])
  {
    assert [] + opts == opts && opts + [] == opts;
    if c { OptsOkSnoc(opts, [], (flag, value)); }
  }

  /** The optional endings of a user rule. */
  lemma TailOptsOk(r: Rule, base: seq<Opt>)
    requires Printable(r) && OptsOk(base, []) && (PrintsPort(r) ==> ("-p", r.proto) in base)
    ensures OptsOk(base + If(r.ifaceIn != "", "-i", r.ifaceIn) + If(r.ifaceOut != "", "-o", r.ifaceOut)
                   + If(PrintsPort(r), "--dport", r.dport), [])
  {
    var a := base + If(r.ifaceIn != "", "-i", r.ifaceIn);
    OptsOkIf(base, r.ifaceIn != "", "-i", r.ifaceIn);
    OptsOkIf(a, r.ifaceOut != "", "-o", r.ifaceOut);
    OptsOkIf(a + If(r.ifaceOut != "", "-o", r.ifaceOut), PrintsPort(r), "--dport", r.dport);
  }

  lemma UserOptsOk(r: Rule)
    requires Printable(r)
    ensures OptsOk(UserOpts(r), [])
  {
    var a := If(r.proto != "all", "-p", r.proto);
    assert [] + a == a;
    OptsOkIf([], r.proto != "all", "-p", r.proto);
    OptsOkIf(a, true, "-s", r.src);
    OptsOkIf(a + [("-s", r.src)], true, "-d", r.dst);
    TailOptsOk(r, a + [("-s", r.src)] + [("-d", r.dst)]);
  }

  lemma SourceOptsOk(f: Forward)
    requires PrintableForward(f)
    ensures OptsOk([("-i", f.ifaceIn), ("-p", f.proto)] + If(FromSomewhere(f), "-s", f.src), [])
  {
    var a: seq<Opt> := [("-i", f.ifaceIn)];
    assert Token("tcp") && Token("udp");
    assert [] + a == a && a + [("-p", f.proto)] == [("-i", f.ifaceIn), ("-p", f.proto)];
    OptsOkIf([], true, "-i", f.ifaceIn);
    OptsOkIf(a, true, "-p", f.proto);
    OptsOkIf([("-i", f.ifaceIn), ("-p", f.proto)], FromSomewhere(f), "-s", f.src);
  }

  lemma ForwardOptsOk(f: Forward)
    requires PrintableForward(f)
    ensures OptsOk(AutoOpts(f), []) && OptsOk(DnatOpts(f), [])
  {
    var a := [("-i", f.ifaceIn), ("-p", f.proto)] + If(FromSomewhere(f), "-s", f.src);
    SourceOptsOk(f);
    assert a[1] == ("-p", f.proto);
    OptsOkIf(a, true, "-d", f.targetIp);
    var b := a + [("-d", f.targetIp)];
    assert b[1] == ("-p", f.proto);
    OptsOkIf(b, true, "--dport", f.targetPort);
    OptsOkIf(a, f.dst != "", "-d", f.dst);
    var c := a + If(f.dst != "", "-d", f.dst);
    assert c[1] == ("-p", f.proto);
    OptsOkIf(c, true, "--dport", f.extPort);
  }

  lemma NamesAreTokens()
    ensures Token("FORWARD") && Token("PREROUTING") && Token("LOGDROP") && Token("LOGREJECT")
    ensures Token("ACCEPT") && Token("DROP") && Token("REJECT")
  {
  }

  const FILTER_NAMES := {"INPUT", "FORWARD", "OUTPUT", "LOGDROP", "LOGREJECT"}

  lemma UserRuleOk(r: Rule)
    requires Printable(r) && KnownAction(r.action)
    ensures RuleOk(UserRule(r), FILTER_NAMES)
  {
    UserOptsOk(r);
    NamesAreTokens();
    assert "LOG" + "DROP" == "LOGDROP" && "LOG" + "REJECT" == "LOGREJECT";
  }

  lemma ForwardRulesOk(f: Forward)
    requires PrintableForward(f)
    ensures RuleOk(AutoRule(f), FILTER_NAMES) && RuleOk(DnatRule(f), {"PREROUTING"})
  {
    ForwardOptsOk(f);
    NamesAreTokens();
    assert Token("--to-destination") && Token("DNAT");
    assert Token(f.targetIp + ":" + f.targetPort);
  }

  lemma StateRuleOk(states: seq<string>, target: string)
    requires Token(Join(states, ",")) && Token(target) && target in TARGETS
    ensures RuleOk(StateRule(states, target), FILTER_NAMES)
  {
    NamesAreTokens();
    assert Token("conntrack");
  }

  lemma LimitedLogOk(chain: string, reason: string)
    requires chain in FILTER_NAMES && Token(chain) && Token(reason)
    ensures RuleOk(LimitedLog(chain, reason), FILTER_NAMES)
  {
    hide Token;
    LimitTokens();
    LogArgs();
    LimitOpts();
  }

  lemma LimitTokens()
    ensures Token("limit") && Token("5/second") && Token("NFLOG")
  {
  }

  lemma LogArgs()
    ensures Token("--nflog-group") && Token("1") && Token("--nflog-prefix") && Token("\"FW") && Token("\"")
  {
  }

  lemma LimitOpts()
    ensures OptsOk([("-m", "limit"), ("--limit", "5/second")], [])
  {
    hide Token;
    LimitTokens();
    var os: seq<Opt> := [("-m", "limit"), ("--limit", "5/second")];
    assert os[1..] == [os[1]] && os[1..][1..] == [];
  }

  lemma LogRulesOk()
    ensures forall k | k in LogRules() :: RuleOk(k, FILTER_NAMES)
  {
    NamesAreTokens();
    assert Token("DROP:") && Token("REJECT:");
    LimitedLogOk("LOGDROP", "DROP:");
    LimitedLogOk("LOGREJECT", "REJECT:");
  }

  lemma StateRulesOk()
    ensures forall k | k in StateRules() :: RuleOk(k, FILTER_NAMES)
  {
    NamesAreTokens();
    var reply := "ESTABLISHED,RELATED";
    assert Join(REPLY_STATES, ",") == reply && Token(reply);
    assert Join(["INVALID"], ",") == "INVALID" && Token("INVALID");
    StateRuleOk(REPLY_STATES, "ACCEPT");
    StateRuleOk(["INVALID"], "DROP");
  }

  lemma LastRulesOk()
    ensures RuleOk(ICS_RULE, FILTER_NAMES) && RuleOk(CATCH_ALL, FILTER_NAMES)
  {
    NamesAreTokens();
    assert Token(ICS_SUBNET);
    OptsOkIf([], true, "-s", ICS_SUBNET);
    assert [] + [("-s", ICS_SUBNET)] == [("-s", ICS_SUBNET)];
  }

  lemma {:induction false} ForwardsKept(fs: seq<Forward>)
    ensures forall f :: f in AutoForwards(fs) <==> f in fs && f.enabled && f.autoFwRule
    ensures forall f :: f in Enabled(fs) <==> f in fs && f.enabled
  {
    if fs != [] {
      ForwardsKept(fs[..|fs| - 1]);
      assert fs == fs[..|fs| - 1] + [fs[|fs| - 1]];
    }
  }

  lemma FilterRulesOk(rules: seq<Rule>, fs: seq<Forward>)
    requires Compilable(rules, fs)
    ensures forall k | k in LogRules() + ForwardChain(rules, fs) :: RuleOk(k, FILTER_NAMES)
  {
    LogRulesOk();
    StateRulesOk();
    LastRulesOk();
    ForwardsKept(fs);
    var autos := AutoForwards(fs);
    forall k | k in UserRules(rules) ensures RuleOk(k, FILTER_NAMES) {
      var i :| 0 <= i < |rules| && k == UserRule(rules[i]);
      assert rules[i] in rules;
      UserRuleOk(rules[i]);
    }
    forall k | k in AutoRules(autos) ensures RuleOk(k, FILTER_NAMES) {
      var i :| 0 <= i < |autos| && k == AutoRule(autos[i]);
      assert autos[i] in autos;
      ForwardRulesOk(autos[i]);
    }
    InSum(LogRules(), StateRules(), UserRules(rules), AutoRules(autos), [ICS_RULE, CATCH_ALL]);
  }

  lemma InSum(a: seq<ChainRule>, b: seq<ChainRule>, c: seq<ChainRule>, d: seq<ChainRule>, e: seq<ChainRule>)
    ensures forall k | k in a + (b + c + d + e) :: k in a || k in b || k in c || k in d || k in e
  {
  }

  lemma NatRulesOk(fs: seq<Forward>)
    requires forall f | f in fs :: PrintableForward(f)
    ensures forall k | k in DnatRules(Enabled(fs)) :: RuleOk(k, {"PREROUTING"})
  {
    ForwardsKept(fs);
    var on := Enabled(fs);
    forall k | k in DnatRules(on) ensures RuleOk(k, {"PREROUTING"}) {
      var i :| 0 <= i < |on| && k == DnatRule(on[i]);
      assert on[i] in on;
      ForwardRulesOk(on[i]);
    }
  }

  lemma MoreNamesAreTokens()
    ensures Token("INPUT") && Token("OUTPUT") && Token("-")
  {
  }

  lemma ChainsAreOk()
    ensures ChainsOk(FILTER_CHAINS) && ChainsOk(NAT_CHAINS)
  {
    NamesAreTokens();
    MoreNamesAreTokens();
  }

  lemma ChainsDeclared()
    ensures ChainsOk(FILTER_CHAINS) && ChainsOk(NAT_CHAINS)
    ensures Declare(map[], FILTER_CHAINS).Keys == FILTER_NAMES && Declare(map[], FILTER_CHAINS)["FORWARD"] == "DROP"
    ensures Declare(map[], NAT_CHAINS).Keys == {"PREROUTING"}
  {
    hide Token, ChainsOk;
    ChainsAreOk();
    var c1, c2, c3 := FILTER_CHAINS[1..], FILTER_CHAINS[2..], FILTER_CHAINS[3..];
    assert c2 == c1[1..] && c3 == c2[1..] && c3[1..] == [FILTER_CHAINS[4]] && [FILTER_CHAINS[4]][1..] == [];
    var m := map["INPUT" := "ACCEPT"]["FORWARD" := "DROP"];
    assert Declare(map[], FILTER_CHAINS) == Declare(m, c2) == Declare(m["OUTPUT" := "ACCEPT"], c3);
    var n := m["OUTPUT" := "ACCEPT"]["LOGDROP" := "-"];
    assert Declare(m["OUTPUT" := "ACCEPT"], c3) == Declare(n, c3[1..]) == n["LOGREJECT" := "-"];
    assert NAT_CHAINS[1..] == [];
  }

  /** The file that Apply writes, as `_apply_rules_now` puts it together. */
  function ApplyText(rules: seq<Rule>, fs: seq<Forward>): string {
    NatText(fs) + FilterText(rules, fs)
  }

  function FilterTable(rules: seq<Rule>, fs: seq<Forward>): Table {
    Table(Declare(map[], FILTER_CHAINS), LogRules() + ForwardChain(rules, fs))
  }

  function NatTable(fs: seq<Forward>): Table {
    Table(Declare(map[], NAT_CHAINS), DnatRules(Enabled(fs)))
  }

  lemma LoadBoth(name1: string, chains1: seq<(string, string)>, ks1: seq<ChainRule>,
                 name2: string, chains2: seq<(string, string)>, ks2: seq<ChainRule>)
    requires Token("*" + name1) && Token("*" + name2) && ChainsOk(chains1) && ChainsOk(chains2)
    requires forall k | k in ks1 :: RuleOk(k, Declare(map[], chains1).Keys)
    requires forall k | k in ks2 :: RuleOk(k, Declare(map[], chains2).Keys)
    ensures Restore(Unlines(TableLines(name1, chains1, ks1)) + Unlines(TableLines(name2, chains2, ks2)))
         == Ok(map[name1 := Table(Declare(map[], chains1), ks1)][name2 := Table(Declare(map[], chains2), ks2)])
  {
    var a, b := TableLines(name1, chains1, ks1), TableLines(name2, chains2, ks2);
    var m1: map<string, Table> := map[][name1 := Table(Declare(map[], chains1), ks1)];
    UnlinesOfAppend(a, b);
    TableOnOneLineEach(name1, chains1, ks1, Declare(map[], chains1).Keys);
    TableOnOneLineEach(name2, chains2, ks2, Declare(map[], chains2).Keys);
    LinesOfUnlines(a + b);
    LoadTable(map[], name1, chains1, ks1);
    LoadTable(m1, name2, chains2, ks2);
    Then(Loading("", map[]), a, Loading("", m1), b, Loading("", m1[name2 := Table(Declare(map[], chains2), ks2)]));
  }

  /** The applied file loads without error, as exactly the rules it was made from. */
  lemma ApplyLoads(rules: seq<Rule>, fs: seq<Forward>)
    requires Compilable(rules, fs)
    ensures Restore(ApplyText(rules, fs)) == Ok(map["nat" := NatTable(fs)]["filter" := FilterTable(rules, fs)])
  {
    hide ChainsOk, Restore, RuleOk;
    ChainsDeclared();
    FilterRulesOk(rules, fs);
    NatRulesOk(fs);
    assert Token("*" + "nat") && Token("*" + "filter");
    LoadBoth("nat", NAT_CHAINS, DnatRules(Enabled(fs)), "filter", FILTER_CHAINS, LogRules() + ForwardChain(rules, fs));
  }

  // ---------- walking the loaded chain ----------

  /** One step of a walk past a rule that does not apply. */
  lemma Skip(m: Matchers, all: seq<ChainRule>, k: ChainRule, rest: seq<ChainRule>, chain: string, p: Packet, budget: bool, depth: nat)
    requires k.chain != chain || !HoldAll(m, k.opts, p, budget)
    ensures Walk(m, all, [k] + rest, chain, p, budget, depth) == Walk(m, all, rest, chain, p, budget, depth)
  {
    assert ([k] + rest)[1..] == rest;
  }

  lemma LimitHolds(m: Matchers, chain: string, reason: string, p: Packet, budget: bool)
    ensures HoldAll(m, LimitedLog(chain, reason).opts, p, budget) == budget
  {
    var opts := LimitedLog(chain, reason).opts;
    assert ("--limit", "5/second") in opts;
    assert forall o | o in opts :: o == ("-m", "limit") || o == ("--limit", "5/second");
  }

  /** A logging pair records the packet if the limiter allows and then denies it. */
  lemma WalkLogPair(m: Matchers, all: seq<ChainRule>, chain: string, reason: string, target: string, rest: seq<ChainRule>,
                    p: Packet, budget: bool, depth: nat)
    requires target == "DROP" || target == "REJECT"
    ensures Walk(m, all, [LimitedLog(chain, reason)] + ([ChainRule(chain, [], target, [])] + rest), chain, p, budget, depth)
         == Denied(if target == "DROP" then Drop else Reject, budget)
  {
    var log, deny := LimitedLog(chain, reason), ChainRule(chain, [], target, []);
    LimitHolds(m, chain, reason, p, budget);
    var todo := [log] + ([deny] + rest);
    assert todo[0] == log && todo[1..] == [deny] + rest && ([deny] + rest)[0] == deny;
  }

  lemma WalkLogChains(m: Matchers, all: seq<ChainRule>, rest: seq<ChainRule>, p: Packet, budget: bool, depth: nat)
    ensures Walk(m, all, LogRules() + rest, "LOGDROP", p, budget, depth) == Denied(Drop, budget)
    ensures Walk(m, all, LogRules() + rest, "LOGREJECT", p, budget, depth) == Denied(Reject, budget)
    ensures Walk(m, all, LogRules() + rest, "FORWARD", p, budget, depth) == Walk(m, all, rest, "FORWARD", p, budget, depth)
  {
    var r := LogRules();
    var t3 := [r[3]] + rest;
    var t2 := [r[2]] + t3;
    var t1 := [r[1]] + t2;
    assert r + rest == [r[0]] + t1;
    WalkLogPair(m, all, "LOGDROP", "DROP:", "DROP", t2, p, budget, depth);
    Skip(m, all, r[0], t1, "LOGREJECT", p, budget, depth);
    Skip(m, all, r[1], t2, "LOGREJECT", p, budget, depth);
    WalkLogPair(m, all, "LOGREJECT", "REJECT:", "REJECT", rest, p, budget, depth);
    Skip(m, all, r[0], t1, "FORWARD", p, budget, depth);
    Skip(m, all, r[1], t2, "FORWARD", p, budget, depth);
    Skip(m, all, r[2], t3, "FORWARD", p, budget, depth);
    Skip(m, all, r[3], rest, "FORWARD", p, budget, depth);
  }

  lemma StateHolds(m: Matchers, states: seq<string>, target: string, p: Packet, budget: bool)
    requires |states| > 0 && forall s | s in states :: ',' !in s
    ensures HoldAll(m, StateRule(states, target).opts, p, budget) == (p.state in states)
  {
    SplitOfJoin(states, ',');
    assert [','] == ",";
    var opts := StateRule(states, target).opts;
    assert opts[1] in opts;
    assert forall o | o in opts :: o == opts[0] || o == opts[1];
  }

  lemma WalkState(m: Matchers, all: seq<ChainRule>, states: seq<string>, target: string, rest: seq<ChainRule>,
                  p: Packet, budget: bool, depth: nat)
    requires |states| > 0 && (forall s | s in states :: ',' !in s) && (target == "ACCEPT" || target == "DROP")
    ensures Walk(m, all, [StateRule(states, target)] + rest, "FORWARD", p, budget, depth)
         == if p.state in states then Outcome(Some(if target == "ACCEPT" then Accept else Drop), 0)
            else Walk(m, all, rest, "FORWARD", p, budget, depth)
  {
    var k := StateRule(states, target);
    StateHolds(m, states, target, p, budget);
    if p.state !in states {
      Skip(m, all, k, rest, "FORWARD", p, budget, depth);
    } else {
      assert ([k] + rest)[0] == k;
    }
  }

  lemma WalkStates(m: Matchers, all: seq<ChainRule>, rest: seq<ChainRule>, p: Packet, budget: bool, depth: nat)
    ensures Walk(m, all, StateRules() + rest, "FORWARD", p, budget, depth)
         == if p.state in REPLY_STATES then Outcome(Some(Accept), 0)
            else if p.state == "INVALID" then Outcome(Some(Drop), 0)
            else Walk(m, all, rest, "FORWARD", p, budget, depth)
  {
    assert ',' !in "ESTABLISHED" && ',' !in "RELATED" && ',' !in "INVALID";
    var more := [StateRule(["INVALID"], "DROP")] + rest;
    assert StateRules() + rest == [StateRule(REPLY_STATES, "ACCEPT")] + more;
    WalkState(m, all, REPLY_STATES, "ACCEPT", more, p, budget, depth);
    WalkState(m, all, ["INVALID"], "DROP", rest, p, budget, depth);
  }

  /** The printed options of a user rule hold exactly when the rule matches, as far as it is printed. */
  lemma UserHolds(m: Matchers, r: Rule, p: Packet, budget: bool)
    ensures HoldAll(m, UserOpts(r), p, budget) == Matches(m, Printed(r), p)
  {
    var a := If(r.proto != "all", "-p", r.proto);
    var b, c := [("-s", r.src)], [("-d", r.dst)];
    var d, e := If(r.ifaceIn != "", "-i", r.ifaceIn), If(r.ifaceOut != "", "-o", r.ifaceOut);
    var f := If(PrintsPort(r), "--dport", r.dport);
    HoldSum(m, a, b, p, budget);
    HoldSum(m, a + b, c, p, budget);
    HoldSum(m, a + b + c, d, p, budget);
    HoldSum(m, a + b + c + d, e, p, budget);
    HoldSum(m, a + b + c + d + e, f, p, budget);
    HoldIf(m, r.proto != "all", "-p", r.proto, p, budget);
    HoldIf(m, true, "-s", r.src, p, budget);
    HoldIf(m, true, "-d", r.dst, p, budget);
    HoldIf(m, r.ifaceIn != "", "-i", r.ifaceIn, p, budget);
    HoldIf(m, r.ifaceOut != "", "-o", r.ifaceOut, p, budget);
    HoldIf(m, PrintsPort(r), "--dport", r.dport, p, budget);
  }

  /** Any address, interface and protocol, but no port. */
  function NoPort(): Matchers {
    Matchers((_, _) => true, (_, _) => true, (_, _) => true, (_, _) => false, _ => 0, _ => 0)
  }

  /** The printed options of a rule mean the rule if and only if it has no port, or protocol tcp or udp. */
  lemma PortIsMeant(r: Rule)
    ensures (forall m: Matchers, p: Packet, budget: bool :: HoldAll(m, UserOpts(r), p, budget) == Matches(m, r, p))
       <==> r.dport == "" || r.proto == "tcp" || r.proto == "udp"
  {
    hide HoldAll, UserOpts;
    forall m: Matchers, p: Packet, budget: bool ensures HoldAll(m, UserOpts(r), p, budget) == Matches(m, Printed(r), p) {
      UserHolds(m, r, p, budget);
    }
    if r.dport != "" && r.proto != "tcp" && r.proto != "udp" {
      var p := Packet("", "", 0, 0, "", 0, "NEW");
      assert HoldAll(NoPort(), UserOpts(r), p, false) != Matches(NoPort(), r, p);
    }
  }

  lemma HoldSum(m: Matchers, a: seq<Opt>, b: seq<Opt>, p: Packet, budget: bool)
    ensures HoldAll(m, a + b, p, budget) == (HoldAll(m, a, p, budget) && HoldAll(m, b, p, budget))
  {
    assert forall o | o in a :: o in a + b;
    assert forall o | o in b :: o in a + b;
  }

  lemma HoldIf(m: Matchers, c: bool, flag: string, value: string, p: Packet, budget: bool)
    ensures HoldAll(m, If(c, flag, value), p, budget) == (c ==> Holds(m, (flag, value), p, budget))
  {
    if c {
      assert (flag, value) in [(flag, value)];
      assert If(c, flag, value) == [(flag, value)];
    }
  }

  lemma AutoHolds(m: Matchers, f: Forward, p: Packet, budget: bool)
    requires f.enabled && f.autoFwRule
    ensures HoldAll(m, AutoOpts(f), p, budget) == Admits(m, f, p)
  {
    var a: seq<Opt> := [("-i", f.ifaceIn), ("-p", f.proto)];
    var b := If(FromSomewhere(f), "-s", f.src);
    assert a == [("-i", f.ifaceIn)] + [("-p", f.proto)];
    HoldSum(m, [("-i", f.ifaceIn)], [("-p", f.proto)], p, budget);
    HoldSum(m, a, b, p, budget);
    HoldSum(m, a + b, [("-d", f.targetIp)], p, budget);
    HoldSum(m, a + b + [("-d", f.targetIp)], [("--dport", f.targetPort)], p, budget);
    HoldIf(m, true, "-i", f.ifaceIn, p, budget);
    HoldIf(m, true, "-p", f.proto, p, budget);
    HoldIf(m, FromSomewhere(f), "-s", f.src, p, budget);
    HoldIf(m, true, "-d", f.targetIp, p, budget);
    HoldIf(m, true, "--dport", f.targetPort, p, budget);
  }

  /** A packet sent to a logging chain is denied there. */
  lemma WalkDenied(m: Matchers, all: seq<ChainRule>, others: seq<ChainRule>, k: ChainRule, rest: seq<ChainRule>,
                   p: Packet, budget: bool, depth: nat)
    requires all == LogRules() + others && depth > 0
    requires k.chain == "FORWARD" && HoldAll(m, k.opts, p, budget) && (k.target == "LOGDROP" || k.target == "LOGREJECT")
    ensures Walk(m, all, [k] + rest, "FORWARD", p, budget, depth)
         == Denied(if k.target == "LOGDROP" then Drop else Reject, budget)
  {
    WalkLogChains(m, all, others, p, budget, depth - 1);
    assert ([k] + rest)[0] == k;
  }

  /** A user rule whose options hold decides by its action. */
  lemma WalkDecides(m: Matchers, all: seq<ChainRule>, others: seq<ChainRule>, r: Rule, more: seq<ChainRule>,
                    p: Packet, budget: bool, depth: nat)
    requires all == LogRules() + others && depth > 0 && KnownAction(r.action) && HoldAll(m, UserOpts(r), p, budget)
    ensures Walk(m, all, [UserRule(r)] + more, "FORWARD", p, budget, depth) == ByAction(r.action, budget)
  {
    hide UserOpts, HoldAll, LogRules;
    var k := UserRule(r);
    assert "LOG" + "DROP" == "LOGDROP" && "LOG" + "REJECT" == "LOGREJECT";
    if r.action != "ACCEPT" { WalkDenied(m, all, others, k, more, p, budget, depth); }
    assert ([k] + more)[0] == k;
  }

  lemma {:induction false} WalkUsers(m: Matchers, all: seq<ChainRule>, others: seq<ChainRule>, rules: seq<Rule>, rest: seq<ChainRule>,
                  p: Packet, budget: bool, depth: nat)
    requires all == LogRules() + others && depth > 0
    requires forall r | r in rules :: KnownAction(r.action)
    ensures var n := FirstMatch(m, AsPrinted(rules), p);
            Walk(m, all, UserRules(rules) + rest, "FORWARD", p, budget, depth)
            == if n < |rules| then ByAction(rules[n].action, budget) else Walk(m, all, rest, "FORWARD", p, budget, depth)
    decreases |rules|
  {
    hide UserOpts, HoldAll, Matches, LogRules, Walk, ByAction;
    if rules == [] {
      assert UserRules(rules) + rest == rest;
    } else {
      var r, k, more := rules[0], UserRule(rules[0]), UserRules(rules[1..]) + rest;
      assert r in rules;
      assert UserRules(rules) + rest == [k] + more;
      UserHolds(m, r, p, budget);
      assert AsPrinted(rules)[1..] == AsPrinted(rules[1..]);
      if Matches(m, Printed(r), p) {
        WalkDecides(m, all, others, r, more, p, budget, depth);
      } else {
        Skip(m, all, k, more, "FORWARD", p, budget, depth);
        WalkUsers(m, all, others, rules[1..], rest, p, budget, depth);
      }
    }
  }

  lemma {:induction false} WalkAutos(m: Matchers, all: seq<ChainRule>, fs: seq<Forward>, rest: seq<ChainRule>,
                  p: Packet, budget: bool, depth: nat)
    requires forall f | f in fs :: f.enabled && f.autoFwRule
    ensures Walk(m, all, AutoRules(fs) + rest, "FORWARD", p, budget, depth)
         == if exists f :: f in fs && Admits(m, f, p) then Outcome(Some(Accept), 0)
            else Walk(m, all, rest, "FORWARD", p, budget, depth)
    decreases |fs|
  {
    if fs == [] {
      assert AutoRules(fs) + rest == rest;
    } else {
      var f, k, more := fs[0], AutoRule(fs[0]), AutoRules(fs[1..]) + rest;
      assert f in fs;
      assert AutoRules(fs) + rest == [k] + more;
      AutoHolds(m, f, p, budget);
      if !Admits(m, f, p) {
        Skip(m, all, k, more, "FORWARD", p, budget, depth);
        WalkAutos(m, all, fs[1..], rest, p, budget, depth);
        assert forall g :: g in fs <==> g == f || g in fs[1..];
      } else {
        assert ([k] + more)[0] == k;
      }
    }
  }

  lemma WalkLast(m: Matchers, all: seq<ChainRule>, others: seq<ChainRule>, p: Packet, budget: bool, depth: nat)
    requires all == LogRules() + others && depth > 0
    ensures Walk(m, all, [ICS_RULE, CATCH_ALL], "FORWARD", p, budget, depth)
         == if m.addr(ICS_SUBNET, p.src) then Outcome(Some(Accept), 0) else Denied(Drop, budget)
  {
    assert [ICS_RULE, CATCH_ALL] == [ICS_RULE] + [CATCH_ALL];
    HoldIf(m, true, "-s", ICS_SUBNET, p, budget);
    assert ICS_RULE.opts == If(true, "-s", ICS_SUBNET);
    if !m.addr(ICS_SUBNET, p.src) {
      Skip(m, all, ICS_RULE, [CATCH_ALL], "FORWARD", p, budget, depth);
      assert [CATCH_ALL] + [] == [CATCH_ALL];
      WalkDenied(m, all, others, CATCH_ALL, [], p, budget, depth);
    }
  }

  lemma AutosAdmit(m: Matchers, fs: seq<Forward>, p: Packet)
    ensures (exists f :: f in AutoForwards(fs) && Admits(m, f, p)) <==> (exists f :: f in fs && Admits(m, f, p))
  {
    ForwardsKept(fs);
  }

  lemma ChainMeansPolicy(m: Matchers, rules: seq<Rule>, fs: seq<Forward>, p: Packet, budget: bool, depth: nat)
    requires Compilable(rules, fs) && depth > 0
    ensures var all := LogRules() + ForwardChain(rules, fs);
            Walk(m, all, all, "FORWARD", p, budget, depth) == Policy(m, AsPrinted(rules), fs, p, budget)
  {
    hide Walk, Admits, FirstMatch, ByAction, Denied;
    var others := ForwardChain(rules, fs);
    var all := LogRules() + others;
    var last := [ICS_RULE, CATCH_ALL];
    var autos := AutoForwards(fs);
    WalkLogChains(m, all, others, p, budget, depth);
    assert others == StateRules() + (UserRules(rules) + (AutoRules(autos) + last));
    WalkStates(m, all, UserRules(rules) + (AutoRules(autos) + last), p, budget, depth);
    WalkUsers(m, all, others, rules, AutoRules(autos) + last, p, budget, depth);
    ForwardsKept(fs);
    WalkAutos(m, all, autos, last, p, budget, depth);
    AutosAdmit(m, fs, p);
    WalkLast(m, all, others, p, budget, depth);
  }

  lemma PolicyDecides(m: Matchers, rules: seq<Rule>, fs: seq<Forward>, p: Packet, budget: bool)
    ensures Policy(m, rules, fs, p, budget).verdict.Some?
  {
    hide FirstMatch, Admits;
  }

  lemma TableMeansPolicy(m: Matchers, t: Table, rules: seq<Rule>, fs: seq<Forward>, p: Packet, budget: bool, depth: nat)
    requires Compilable(rules, fs) && depth > 0 && t == FilterTable(rules, fs)
    ensures "FORWARD" in t.policies && Filter(m, t, "FORWARD", p, budget, depth) == Policy(m, AsPrinted(rules), fs, p, budget)
  {
    hide Walk, ChainsOk, ForwardChain, LogRules, Compilable, Policy;
    ChainsDeclared();
    ChainMeansPolicy(m, rules, fs, p, budget, depth);
    PolicyDecides(m, AsPrinted(rules), fs, p, budget);
  }

  /**
   Whatever the rules, the forwards and the packet, the applied file loads, and its FORWARD chain
   decides (and logs) as the policy says for the rules as printed.
   */
  lemma CompileMeansPrinted(m: Matchers, rules: seq<Rule>, fs: seq<Forward>, p: Packet, budget: bool, depth: nat)
    requires Compilable(rules, fs) && depth > 0
    ensures var r := Restore(ApplyText(rules, fs));
            && r.Ok? && "filter" in r.value && "FORWARD" in r.value["filter"].policies
            && Filter(m, r.value["filter"], "FORWARD", p, budget, depth) == Policy(m, AsPrinted(rules), fs, p, budget)
  {
    ApplyLoads(rules, fs);
    var t := Restore(ApplyText(rules, fs)).value["filter"];
    TableMeansPolicy(m, t, rules, fs, p, budget, depth);
  }

  /** Compiling preserves meaning: with every port printable, the FORWARD chain decides as the policy says. */
  lemma CompilePreservesMeaning(m: Matchers, rules: seq<Rule>, fs: seq<Forward>, p: Packet, budget: bool, depth: nat)
    requires Compilable(rules, fs) && depth > 0 && PortsPrinted(rules)
    ensures var r := Restore(ApplyText(rules, fs));
            && r.Ok? && "filter" in r.value && "FORWARD" in r.value["filter"].policies
            && Filter(m, r.value["filter"], "FORWARD", p, budget, depth) == Policy(m, rules, fs, p, budget)
  {
    hide Restore, Filter, Policy;
    CompileMeansPrinted(m, rules, fs, p, budget, depth);
    PrintedIsMeant(rules);
  }

  /** Port 443 from anywhere to anywhere, as the form makes it when the protocol is left at "all". */
  const ANY_443 := Rule("", "", ANYWHERE, ANYWHERE, "all", "443", "ACCEPT", "")

  lemma Any443IsCompilable()
    ensures Compilable([ANY_443], [])
  {
    assert Token(ANYWHERE) && Token("all") && Token("443") && Token("ACCEPT");
  }

  lemma FirstOfOne(m: Matchers, r: Rule, p: Packet)
    ensures FirstMatch(m, [r], p) == if Matches(m, r, p) then 0 else 1
  {
    assert [r][1..] == [];
    assert FirstMatch(m, [], p) == 0;
  }

  /** The chain of that one rule accepts every new packet; the policy denies those to other ports. */
  lemma PortOfAllIsLost(m: Matchers, p: Packet, budget: bool, depth: nat)
    requires depth > 0 && p.state == "NEW" && m.addr(ANYWHERE, p.src) && m.addr(ANYWHERE, p.dst)
    ensures var r := Restore(ApplyText([ANY_443], []));
            && r.Ok? && "filter" in r.value && "FORWARD" in r.value["filter"].policies
            && Filter(m, r.value["filter"], "FORWARD", p, budget, depth) == Outcome(Some(Accept), 0)
    ensures !m.port("443", p.dport) && !m.addr(ICS_SUBNET, p.src) ==> Policy(m, [ANY_443], [], p, budget) == Denied(Drop, budget)
  {
    hide Restore, Filter, Token, Compilable, ApplyText, FirstMatch, Denied;
    Any443IsCompilable();
    CompileMeansPrinted(m, [ANY_443], [], p, budget, depth);
    assert AsPrinted([ANY_443]) == [Printed(ANY_443)];
    FirstOfOne(m, Printed(ANY_443), p);
    FirstOfOne(m, ANY_443, p);
  }

  // ---------- the router's own traffic ----------

  lemma {:induction false} WalkElsewhere(m: Matchers, all: seq<ChainRule>, todo: seq<ChainRule>, chain: string, p: Packet, budget: bool, depth: nat)
    requires forall k | k in todo :: k.chain != chain
    ensures Walk(m, all, todo, chain, p, budget, depth) == Outcome(None, 0)
  {
    if todo != [] {
      assert todo[0] in todo;
      WalkElsewhere(m, all, todo[1..], chain, p, budget, depth);
    }
  }

  lemma ChainsOfRules(rules: seq<Rule>, fs: seq<Forward>)
    ensures forall k | k in LogRules() + ForwardChain(rules, fs) :: k.chain in {"FORWARD", "LOGDROP", "LOGREJECT"}
  {
    hide UserOpts, AutoOpts;
    InSum(LogRules(), StateRules(), UserRules(rules), AutoRules(AutoForwards(fs)), [ICS_RULE, CATCH_ALL]);
  }

  /** Whatever the rules and forwards, packets to and from the router itself are accepted and never logged. */
  lemma RouterIsOpen(m: Matchers, rules: seq<Rule>, fs: seq<Forward>, p: Packet, budget: bool, depth: nat)
    requires Compilable(rules, fs)
    ensures var r := Restore(ApplyText(rules, fs));
            && r.Ok? && "filter" in r.value && "INPUT" in r.value["filter"].policies && "OUTPUT" in r.value["filter"].policies
            && Filter(m, r.value["filter"], "INPUT", p, budget, depth) == Outcome(Some(Accept), 0)
            && Filter(m, r.value["filter"], "OUTPUT", p, budget, depth) == Outcome(Some(Accept), 0)
  {
    hide Restore, ApplyText, Walk, ForwardChain, LogRules, Compilable;
    ApplyLoads(rules, fs);
    ChainsOfRules(rules, fs);
    var all := LogRules() + ForwardChain(rules, fs);
    WalkElsewhere(m, all, all, "INPUT", p, budget, depth);
    WalkElsewhere(m, all, all, "OUTPUT", p, budget, depth);
    OwnPolicies(rules, fs);
  }

  lemma OwnPolicies(rules: seq<Rule>, fs: seq<Forward>)
    ensures var t := FilterTable(rules, fs);
            "INPUT" in t.policies && "OUTPUT" in t.policies && t.policies["INPUT"] == "ACCEPT" && t.policies["OUTPUT"] == "ACCEPT"
  {
  }
}
