/**
 The router's rule compiler: user rules and port forwards printed as an iptables-restore file.
 The second half is a reference reading of such a file (what the kernel makes of it), against
 which the compiler is proved to preserve meaning.
 */
module Firewall {
  import opened Text

  const ICS_SUBNET := "192.168.95.0/24"
  const ANYWHERE := "0.0.0.0/0"

  datatype Rule = Rule(ifaceIn: string, ifaceOut: string, src: string, dst: string,
                       proto: string, dport: string, action: string, comment: string)

  datatype Forward = Forward(ifaceIn: string, proto: string, src: string, dst: string, extPort: string,
                             targetIp: string, targetPort: string, enabled: bool, autoFwRule: bool)

  /** One option of a rule line: its flag and its value. */
  type Opt = (string, string)

  // ---------- printing rules and tables ----------

  /** One rule of a chain: its options in order, its target, and what follows the target. */
  datatype ChainRule = ChainRule(chain: string, opts: seq<Opt>, target: string, args: seq<string>)

  function Flatten(opts: seq<Opt>): seq<string> {
    if opts == [] then [] else [opts[0].0, opts[0].1] + Flatten(opts[1..])
  }

  function RuleTokens(k: ChainRule): seq<string> {
    ["-A", k.chain] + Flatten(k.opts) + ["-j", k.target] + k.args
  }

  /** The logging lines end in a blank. */
  function Padding(k: ChainRule): string {
    if k.target == "NFLOG" && k.args != [] then " " else ""
  }

  function Print(k: ChainRule): string {
    Unwords(RuleTokens(k)) + Padding(k)
  }

  function PrintAll(ks: seq<ChainRule>): (ls: seq<string>)
    ensures |ls| == |ks|
  {
    seq(|ks|, i requires 0 <= i < |ks| => Print(ks[i]))
  }

  function Declarations(chains: seq<(string, string)>): seq<string> {
    if chains == [] then []
    else [Unwords([":" + chains[0].0, chains[0].1, "[0:0]"])] + Declarations(chains[1..])
  }

  function TableHead(name: string, chains: seq<(string, string)>): seq<string> {
    [Unwords(["*" + name])] + Declarations(chains)
  }

  function TableLines(name: string, chains: seq<(string, string)>, ks: seq<ChainRule>): seq<string> {
    TableHead(name, chains) + PrintAll(ks) + [Unwords(["COMMIT"])]
  }

  // ---------- the rules that are printed ----------

  function If(c: bool, flag: string, value: string): seq<Opt> {
    if c then [(flag, value)] else []
  }

  predicate PrintsPort(r: Rule) {
    r.dport != "" && (r.proto == "tcp" || r.proto == "udp")
  }

  function UserOpts(r: Rule): seq<Opt> {
    If(r.proto != "all", "-p", r.proto) + [("-s", r.src)] + [("-d", r.dst)]
    + If(r.ifaceIn != "", "-i", r.ifaceIn) + If(r.ifaceOut != "", "-o", r.ifaceOut)
    + If(PrintsPort(r), "--dport", r.dport)
  }

  /** Denials jump to the logging chain of the same name. */
  function Target(action: string): string {
    if action == "DROP" || action == "REJECT" then "LOG" + action else action
  }

  function UserRule(r: Rule): ChainRule {
    ChainRule("FORWARD", UserOpts(r), Target(r.action), [])
  }

  predicate FromSomewhere(f: Forward) {
    f.src != "" && f.src != ANYWHERE
  }

  function AutoOpts(f: Forward): seq<Opt> {
    [("-i", f.ifaceIn), ("-p", f.proto)] + If(FromSomewhere(f), "-s", f.src)
    + [("-d", f.targetIp)] + [("--dport", f.targetPort)]
  }

  /** The accept rule that goes with a port forward. */
  function AutoRule(f: Forward): ChainRule {
    ChainRule("FORWARD", AutoOpts(f), "ACCEPT", [])
  }

  function DnatOpts(f: Forward): seq<Opt> {
    [("-i", f.ifaceIn), ("-p", f.proto)] + If(FromSomewhere(f), "-s", f.src)
    + If(f.dst != "", "-d", f.dst) + [("--dport", f.extPort)]
  }

  function DnatRule(f: Forward): ChainRule {
    ChainRule("PREROUTING", DnatOpts(f), "DNAT", ["--to-destination", f.targetIp + ":" + f.targetPort])
  }

  function Enabled(fs: seq<Forward>): seq<Forward> {
    if fs == [] then [] else Enabled(fs[..|fs| - 1]) + (if fs[|fs| - 1].enabled then [fs[|fs| - 1]] else [])
  }

  function AutoForwards(fs: seq<Forward>): seq<Forward> {
    if fs == [] then []
    else AutoForwards(fs[..|fs| - 1])
         + (if fs[|fs| - 1].enabled && fs[|fs| - 1].autoFwRule then [fs[|fs| - 1]] else [])
  }

  function UserRules(rules: seq<Rule>): (ks: seq<ChainRule>)
    ensures |ks| == |rules|
  {
    seq(|rules|, i requires 0 <= i < |rules| => UserRule(rules[i]))
  }

  function AutoRules(fs: seq<Forward>): (ks: seq<ChainRule>)
    ensures |ks| == |fs|
  {
    seq(|fs|, i requires 0 <= i < |fs| => AutoRule(fs[i]))
  }

  function DnatRules(fs: seq<Forward>): (ks: seq<ChainRule>)
    ensures |ks| == |fs|
  {
    seq(|fs|, i requires 0 <= i < |fs| => DnatRule(fs[i]))
  }

  function LimitedLog(chain: string, reason: string): ChainRule {
    ChainRule(chain, [("-m", "limit"), ("--limit", "5/second")], "NFLOG",
              ["--nflog-group", "1", "--nflog-prefix", "\"FW", reason, "\""])
  }

  function LogRules(): seq<ChainRule> {
    [ LimitedLog("LOGDROP", "DROP:"), ChainRule("LOGDROP", [], "DROP", []),
      LimitedLog("LOGREJECT", "REJECT:"), ChainRule("LOGREJECT", [], "REJECT", []) ]
  }

  const REPLY_STATES := ["ESTABLISHED", "RELATED"]

  function StateRule(states: seq<string>, target: string): ChainRule {
    ChainRule("FORWARD", [("-m", "conntrack"), ("--ctstate", Join(states, ","))], target, [])
  }

  function StateRules(): seq<ChainRule> {
    [StateRule(REPLY_STATES, "ACCEPT"), StateRule(["INVALID"], "DROP")]
  }

  const ICS_RULE := ChainRule("FORWARD", [("-s", ICS_SUBNET)], "ACCEPT", [])
  const CATCH_ALL := ChainRule("FORWARD", [], "LOGDROP", [])

  /** The FORWARD chain, rule by rule. */
  function ForwardChain(rules: seq<Rule>, fs: seq<Forward>): seq<ChainRule> {
    StateRules() + UserRules(rules) + AutoRules(AutoForwards(fs)) + [ICS_RULE, CATCH_ALL]
  }

  /** The chains of the filter table with their policies. */
  const FILTER_CHAINS := [("INPUT", "ACCEPT"), ("FORWARD", "DROP"), ("OUTPUT", "ACCEPT"), ("LOGDROP", "-"), ("LOGREJECT", "-")]
  const NAT_CHAINS := [("PREROUTING", "ACCEPT")]

  function FilterText(rules: seq<Rule>, fs: seq<Forward>): string {
    Unlines(TableLines("filter", FILTER_CHAINS, LogRules() + ForwardChain(rules, fs)))
  }

  function NatText(fs: seq<Forward>): string {
    Unlines(TableLines("nat", NAT_CHAINS, DnatRules(Enabled(fs))))
  }

  // ---------- the printing loops ----------

  /** A line still being written: everything up to the jump. */
  function Partial(chain: string, opts: seq<Opt>): string {
    Unwords(["-A", chain] + Flatten(opts))
  }

  lemma {:induction false} FlattenOfAppend(a: seq<Opt>, b: seq<Opt>)
    ensures Flatten(a + b) == Flatten(a) + Flatten(b)
  {
    if a == [] {
      assert a + b == b;
    } else {
      assert (a + b)[1..] == a[1..] + b;
      FlattenOfAppend(a[1..], b);
    }
  }

  lemma PartialOfNothing(chain: string)
    ensures Partial(chain, []) == "-A " + chain
  {
    assert ["-A", chain] + Flatten([]) == ["-A"] + [chain];
    UnwordsSnoc(["-A"], chain);
  }

  /** What `line += f" {flag} {value}"` appends. */
  lemma PartialSnoc(chain: string, opts: seq<Opt>, flag: string, value: string)
    ensures Partial(chain, opts + [(flag, value)]) == Partial(chain, opts) + " " + flag + " " + value
  {
    var ts := ["-A", chain] + Flatten(opts);
    FlattenOfAppend(opts, [(flag, value)]);
    assert Flatten([(flag, value)]) == [flag, value];
    assert ["-A", chain] + Flatten(opts + [(flag, value)]) == ts + [flag] + [value];
    UnwordsSnoc(ts, flag);
    UnwordsSnoc(ts + [flag], value);
  }

  lemma LineOfPartial(chain: string, opts: seq<Opt>, target: string)
    ensures Unwords(RuleTokens(ChainRule(chain, opts, target, []))) == Partial(chain, opts) + " -j " + target
  {
    var ts := ["-A", chain] + Flatten(opts);
    assert RuleTokens(ChainRule(chain, opts, target, [])) == ts + ["-j"] + [target];
    UnwordsSnoc(ts, "-j");
    UnwordsSnoc(ts + ["-j"], target);
    assert Partial(chain, opts) + " " + "-j" + " " + target == Partial(chain, opts) + " -j " + target;
  }

  lemma LineWithArgs(chain: string, opts: seq<Opt>, target: string, flag: string, value: string)
    ensures Unwords(RuleTokens(ChainRule(chain, opts, target, [flag, value])))
         == Unwords(RuleTokens(ChainRule(chain, opts, target, []))) + " " + flag + " " + value
  {
    var ts := RuleTokens(ChainRule(chain, opts, target, []));
    assert RuleTokens(ChainRule(chain, opts, target, [flag, value])) == ts + [flag] + [value];
    UnwordsSnoc(ts, flag);
    UnwordsSnoc(ts + [flag], value);
  }

  /** `_nat_associated_forward_line`: the accept line that goes with a port forward. */
  method NatAssociatedForwardLine(nr: Forward) returns (line: string)
    ensures line == Print(AutoRule(nr))
  {
    ghost var opts := [];
    PartialOfNothing("FORWARD");
    line := "-A " + "FORWARD";
    line, opts := AppendOption("FORWARD", line, opts, "-i", nr.ifaceIn);
    line, opts := AppendOption("FORWARD", line, opts, "-p", nr.proto);
    if nr.src != "" && nr.src != ANYWHERE {
      line, opts := AppendOption("FORWARD", line, opts, "-s", nr.src);
    }
    line, opts := AppendOption("FORWARD", line, opts, "-d", nr.targetIp);
    line, opts := AppendOption("FORWARD", line, opts, "--dport", nr.targetPort);
    assert opts == AutoOpts(nr);
    LineOfPartial("FORWARD", opts, "ACCEPT");
    line := line + " -j " + "ACCEPT";
  }

  /** `line += f" {flag} {value}"`. */
  method AppendOption(ghost chain: string, line: string, ghost opts: seq<Opt>, flag: string, value: string)
    returns (longer: string, ghost more: seq<Opt>)
    requires line == Partial(chain, opts)
    ensures longer == Partial(chain, opts + [(flag, value)])
    ensures more == opts + [(flag, value)]
  {
    PartialSnoc(chain, opts, flag, value);
    longer, more := line + " " + flag + " " + value, opts + [(flag, value)];
  }

  /** The line of one user rule, up to its jump. */
  method PrintUserOptions(r: Rule) returns (line: string)
    ensures line == Partial("FORWARD", UserOpts(r))
  {
    ghost var opts := [];
    PartialOfNothing("FORWARD");
    line := "-A " + "FORWARD";
    if r.proto != "all" {
      line, opts := AppendOption("FORWARD", line, opts, "-p", r.proto);
    }
    line, opts := AppendOption("FORWARD", line, opts, "-s", r.src);
    line, opts := AppendOption("FORWARD", line, opts, "-d", r.dst);
    if r.ifaceIn != "" {
      line, opts := AppendOption("FORWARD", line, opts, "-i", r.ifaceIn);
    }
    if r.ifaceOut != "" {
      line, opts := AppendOption("FORWARD", line, opts, "-o", r.ifaceOut);
    }
    if r.dport != "" && r.proto in ["tcp", "udp"] {
      line, opts := AppendOption("FORWARD", line, opts, "--dport", r.dport);
    }
    assert opts == UserOpts(r);
  }

  /** The line of one user rule. */
  method PrintUserRule(r: Rule) returns (line: string)
    ensures line == Print(UserRule(r))
  {
    line := PrintUserOptions(r);
    var target := r.action;
    if r.action in ["DROP", "REJECT"] {
      target := "LOG" + r.action;
    }
    LineOfPartial("FORWARD", UserOpts(r), target);
    line := line + " -j " + target;
  }

  method PrintUserRules(rules: seq<Rule>) returns (lines: seq<string>)
    ensures lines == PrintAll(UserRules(rules))
  {
    lines := [];
    for n := 0 to |rules|
      invariant lines == PrintAll(UserRules(rules[..n]))
    {
      var line := PrintUserRule(rules[n]);
      lines := lines + [line];
    }
    assert rules[..|rules|] == rules;
  }

  method PrintAutoRules(natRules: seq<Forward>) returns (lines: seq<string>)
    ensures lines == PrintAll(AutoRules(AutoForwards(natRules)))
  {
    lines := [];
    for n := 0 to |natRules|
      invariant lines == PrintAll(AutoRules(AutoForwards(natRules[..n])))
    {
      var nr := natRules[n];
      assert natRules[..n + 1][..n] == natRules[..n];
      if !nr.enabled || !nr.autoFwRule {
        continue;
      }
      var line := NatAssociatedForwardLine(nr);
      lines := lines + [line];
    }
    assert natRules[..|natRules|] == natRules;
  }

  /** `build_iptables_rules`. */
  method BuildIptablesRules(rules: seq<Rule>, natRules: seq<Forward>) returns (text: string)
    ensures text == FilterText(rules, natRules)
  {
    var fixed := PrintAll(LogRules() + StateRules());
    var user := PrintUserRules(rules);
    var auto := PrintAutoRules(natRules);
    Together(LogRules(), StateRules(), UserRules(rules), AutoRules(AutoForwards(natRules)), [ICS_RULE, CATCH_ALL]);
    text := Unlines(TableHead("filter", FILTER_CHAINS) + (fixed + user + auto + PrintAll([ICS_RULE, CATCH_ALL]))
                    + [Unwords(["COMMIT"])]);
  }

  lemma Together(a: seq<ChainRule>, b: seq<ChainRule>, c: seq<ChainRule>, d: seq<ChainRule>, e: seq<ChainRule>)
    ensures PrintAll(a + b) + PrintAll(c) + PrintAll(d) + PrintAll(e) == PrintAll(a + (b + c + d + e))
  {
  }

  method PrintDnatRule(r: Forward) returns (line: string)
    ensures line == Print(DnatRule(r))
  {
    ghost var opts := [];
    PartialOfNothing("PREROUTING");
    line := "-A " + "PREROUTING";
    line, opts := AppendOption("PREROUTING", line, opts, "-i", r.ifaceIn);
    line, opts := AppendOption("PREROUTING", line, opts, "-p", r.proto);
    if r.src != "" && r.src != ANYWHERE {
      line, opts := AppendOption("PREROUTING", line, opts, "-s", r.src);
    }
    if r.dst != "" {
      line, opts := AppendOption("PREROUTING", line, opts, "-d", r.dst);
    }
    line, opts := AppendOption("PREROUTING", line, opts, "--dport", r.extPort);
    assert opts == DnatOpts(r);
    LineOfPartial("PREROUTING", opts, "DNAT");
    LineWithArgs("PREROUTING", opts, "DNAT", "--to-destination", r.targetIp + ":" + r.targetPort);
    line := line + " -j " + "DNAT" + " " + "--to-destination" + " " + (r.targetIp + ":" + r.targetPort);
  }

  method PrintDnatRules(natRules: seq<Forward>) returns (lines: seq<string>)
    ensures lines == PrintAll(DnatRules(Enabled(natRules)))
  {
    lines := [];
    for n := 0 to |natRules|
      invariant lines == PrintAll(DnatRules(Enabled(natRules[..n])))
    {
      var r := natRules[n];
      assert natRules[..n + 1][..n] == natRules[..n];
      if !r.enabled {
        continue;
      }
      var line := PrintDnatRule(r);
      lines := lines + [line];
    }
    assert natRules[..|natRules|] == natRules;
  }

  /** `build_nat_rules`. */
  method BuildNatRules(natRules: seq<Forward>) returns (text: string)
    ensures text == NatText(natRules)
  {
    var body := PrintDnatRules(natRules);
    text := Unlines(TableHead("nat", NAT_CHAINS) + body + [Unwords(["COMMIT"])]);
  }
}
