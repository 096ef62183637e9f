/** Revert: reading the live FORWARD chain back into user rules, and how it undoes Apply. */
module Revert {
  import opened Text
  import opened Firewall
  import opened Kernel
  import opened TableRoundTrip
  import opened CtState

  /** A rule as Revert reconstructs it. */
  datatype Reverted = Reverted(index: nat, chain: string, rule: Rule)

  // ---------- reading one line ----------

  /** The word after the first occurrence of a flag; Python raises when there is none after it. */
  function FlagValue(parts: seq<string>, flag: string, default: string): Result<string> {
    if parts == [] then Ok(default)
    else if parts[0] != flag then FlagValue(parts[1..], flag, default)
    else if |parts| == 1 then Err("IndexError")
    else Ok(parts[1])
  }

  function StripLog(target: string): string {
    if "LOG" <= target then target[3..] else target
  }

  function ReadRule(line: string, index: nat): Result<Reverted> {
    var parts := Words(line);
    var i, o := FlagValue(parts, "-i", ""), FlagValue(parts, "-o", "");
    var s, d := FlagValue(parts, "-s", ANYWHERE), FlagValue(parts, "-d", ANYWHERE);
    var p, port := FlagValue(parts, "-p", "all"), FlagValue(parts, "--dport", "");
    if |parts| < 2 || i.Err? || o.Err? || s.Err? || d.Err? || p.Err? || port.Err? then Err("IndexError")
    else Ok(Reverted(index, parts[1],
                     Rule(i.value, o.value, s.value, d.value, p.value, port.value, StripLog(parts[|parts| - 1]), "")))
  }

  // ---------- reading the chain ----------

  /** The lines the compiler always regenerates itself. */
  function ManagedLines(fs: seq<Forward>): set<string> {
    { NormalizeCtstate(Print(StateRule(REPLY_STATES, "ACCEPT"))), NormalizeCtstate(Print(StateRule(["INVALID"], "DROP"))),
      Print(ICS_RULE), Print(CATCH_ALL) }
    + (set l | l in PrintAll(AutoRules(AutoForwards(fs))))
  }

  predicate Skipped(line: string, managed: set<string>) {
    !("-A FORWARD" <= line) || NormalizeCtstate(line) in managed
  }

  /** Reads the kept lines in order, counting them from `n` + 1; the first error stops the reading. */
  function Collect<A>(raw: seq<string>, keep: string -> bool, read: (string, nat) -> Result<A>, n: nat): Result<seq<A>>
    decreases |raw|
  {
    if raw == [] then Ok([])
    else if !keep(raw[0]) then Collect(raw[1..], keep, read, n)
    else
      var r := read(raw[0], n + 1);
      if r.Err? then Err(r.error)
      else
        var rest := Collect(raw[1..], keep, read, n + 1);
        if rest.Err? then rest else Ok([r.value] + rest.value)
  }

  function ReadChain(raw: seq<string>, managed: set<string>): Result<seq<Reverted>> {
    Collect(raw, l => !Skipped(l, managed), ReadRule, 0)
  }

  method CollectManaged(natRules: seq<Forward>) returns (managed: set<string>)
    ensures managed == ManagedLines(natRules)
  {
    var auto := PrintAutoRules(natRules);
    managed := { NormalizeCtstate(Print(StateRule(REPLY_STATES, "ACCEPT"))),
                 NormalizeCtstate(Print(StateRule(["INVALID"], "DROP"))), Print(ICS_RULE), Print(CATCH_ALL) }
               + (set l | l in auto);
  }

  method ReadLines(raw: seq<string>, keep: string -> bool) returns (rules: Result<seq<Reverted>>)
    ensures rules == Collect(raw, keep, ReadRule, 0)
  {
    var index, found := 0, [];
    assert raw[0..] == raw;
    ghost var whole := Collect(raw, keep, ReadRule, 0);
    assert whole.Ok? ==> found + whole.value == whole.value;
    for n := 0 to |raw|
      invariant whole == (var rest := Collect(raw[n..], keep, ReadRule, index); if rest.Err? then rest else Ok(found + rest.value))
    {
      assert raw[n..][1..] == raw[n + 1..];
      if !keep(raw[n]) {
        continue;
      }
      index := index + 1;
      var r := ReadRule(raw[n], index);
      if r.Err? {
        return Err(r.error);
      }
      ghost var rest := Collect(raw[n + 1..], keep, ReadRule, index);
      assert rest.Ok? ==> found + ([r.value] + rest.value) == found + [r.value] + rest.value;
      found := found + [r.value];
    }
    assert raw[|raw|..] == [] && found + [] == found;
    rules := Ok(found);
  }

  /** `parse_iptables_rules`, given the listing of the FORWARD chain. */
  method ParseIptablesRules(raw: seq<string>, natRules: seq<Forward>) returns (rules: Result<seq<Reverted>>)
    ensures rules == ReadChain(raw, ManagedLines(natRules))
  {
    var managed := CollectManaged(natRules);
    rules := ReadLines(raw, l => !Skipped(l, managed));
  }

  // ---------- flags of a printed line ----------

  function OptValue(opts: seq<Opt>, flag: string, default: string): string {
    if opts == [] then default else if opts[0].0 == flag then opts[0].1 else OptValue(opts[1..], flag, default)
  }

  /** A field that the reader cannot mistake for a flag. */
  predicate Plain(t: string) {
    t == "" || t[0] != '-'
  }

  lemma {:induction false} FlagValueIsOptValue(opts: seq<Opt>, target: string, flag: string, default: string)
    requires flag != "" && flag[0] == '-' && flag != "-j" && Plain(target) && forall o | o in opts :: Plain(o.1)
    ensures FlagValue(Flatten(opts) + ["-j", target], flag, default) == Ok(OptValue(opts, flag, default))
  {
    if opts == [] {
      FlagValueOfJump(target, flag, default);
      assert Flatten(opts) + ["-j", target] == ["-j", target];
    } else {
      hide FlagValue;
      assert opts[0] in opts;
      FlagValueIsOptValue(opts[1..], target, flag, default);
      var more := Flatten(opts[1..]) + ["-j", target];
      assert Flatten(opts) + ["-j", target] == [opts[0].0, opts[0].1] + more;
      FlagValuePast(opts[0].0, opts[0].1, more, flag, default);
    }
  }

  lemma FlagValueOfJump(target: string, flag: string, default: string)
    requires flag != "-j" && flag != target
    ensures FlagValue(["-j", target], flag, default) == Ok(default)
  {
    assert ["-j", target][1..] == [target] && [target][1..] == [];
    assert FlagValue([target], flag, default) == FlagValue([], flag, default);
  }

  lemma FlagValuePast(first: string, value: string, more: seq<string>, flag: string, default: string)
    requires value != flag
    ensures FlagValue([first, value] + more, flag, default) == if first == flag then Ok(value) else FlagValue(more, flag, default)
  {
    var ts := [first, value] + more;
    assert ts[1..] == [value] + more && ts[1..][1..] == more;
  }

  lemma OptValueIf(c: bool, f: string, v: string, rest: seq<Opt>, flag: string, default: string)
    ensures OptValue(If(c, f, v) + rest, flag, default) == if c && f == flag then v else OptValue(rest, flag, default)
  {
    if c {
      assert If(c, f, v) + rest == [(f, v)] + rest;
      assert ([(f, v)] + rest)[1..] == rest;
    } else {
      assert If(c, f, v) + rest == rest;
    }
  }

  lemma OptValueNone(flag: string, default: string)
    ensures OptValue([], flag, default) == default
  {
  }

  /** What a user rule's line says for each flag. */
  lemma UserOptValue(r: Rule, flag: string, default: string)
    ensures OptValue(UserOpts(r), flag, default)
         == if r.proto != "all" && "-p" == flag then r.proto
            else if "-s" == flag then r.src
            else if "-d" == flag then r.dst
            else if r.ifaceIn != "" && "-i" == flag then r.ifaceIn
            else if r.ifaceOut != "" && "-o" == flag then r.ifaceOut
            else if PrintsPort(r) && "--dport" == flag then r.dport
            else default
  {
    hide OptValue, PrintsPort;
    var f := If(PrintsPort(r), "--dport", r.dport);
    var e := If(r.ifaceOut != "", "-o", r.ifaceOut) + f;
    var d := If(r.ifaceIn != "", "-i", r.ifaceIn) + e;
    var c := If(true, "-d", r.dst) + d;
    var b := If(true, "-s", r.src) + c;
    assert UserOpts(r) == If(r.proto != "all", "-p", r.proto) + b;
    OptValueIf(r.proto != "all", "-p", r.proto, b, flag, default);
    OptValueIf(true, "-s", r.src, c, flag, default);
    OptValueIf(true, "-d", r.dst, d, flag, default);
    OptValueIf(r.ifaceIn != "", "-i", r.ifaceIn, e, flag, default);
    OptValueIf(r.ifaceOut != "", "-o", r.ifaceOut, f, flag, default);
    assert f + [] == f;
    OptValueIf(PrintsPort(r), "--dport", r.dport, [], flag, default);
    OptValueNone(flag, default);
  }

  // ---------- reading a user rule back ----------

  predicate PlainFields(r: Rule) {
    Plain(r.ifaceIn) && Plain(r.ifaceOut) && Plain(r.src) && Plain(r.dst) && Plain(r.proto) && Plain(r.dport) && Plain(r.action)
  }

  predicate PlainForward(f: Forward) {
    Plain(f.ifaceIn) && Plain(f.src) && Plain(f.targetIp) && Plain(f.targetPort)
  }

  /** What printing and reading keep of a rule: not its comment, nor a port that is not printed. */
  function Canon(r: Rule): Rule {
    r.(dport := if PrintsPort(r) then r.dport else "", action := StripLog(Target(r.action)), comment := "")
  }

  lemma UserFields(r: Rule)
    requires PlainFields(r)
    ensures forall o | o in UserOpts(r) :: Plain(o.1) && o.0 in FLAGS && o.0 != CTSTATE
  {
    var a, b, c := If(r.proto != "all", "-p", r.proto), [("-s", r.src)], [("-d", r.dst)];
    var d, e, f := If(r.ifaceIn != "", "-i", r.ifaceIn), If(r.ifaceOut != "", "-o", r.ifaceOut), If(PrintsPort(r), "--dport", r.dport);
    forall o | o in UserOpts(r) ensures Plain(o.1) && o.0 in FLAGS && o.0 != CTSTATE {
      assert o in a || o in b || o in c || o in d || o in e || o in f;
      assert o.0 in {"-p", "-s", "-d", "-i", "-o", "--dport"};
    }
  }

  lemma UserTarget(r: Rule)
    requires Token(r.action) && Plain(r.action)
    ensures Token(Target(r.action)) && Plain(Target(r.action))
  {
    assert Token("LOG");
  }

  lemma UserFlag(r: Rule, flag: string, default: string)
    requires PlainFields(r) && Token(r.action) && flag in FLAGS
    ensures FlagValue(RuleTokens(UserRule(r)), flag, default) == Ok(OptValue(UserOpts(r), flag, default))
  {
    UserFields(r);
    UserTarget(r);
    FlagIsToken(flag);
    var rest := Flatten(UserOpts(r)) + ["-j", Target(r.action)];
    var ts := RuleTokens(UserRule(r));
    assert ts == ["-A", "FORWARD"] + rest;
    assert ts[1..] == ["FORWARD"] + rest && ts[1..][1..] == rest;
    FlagValueIsOptValue(UserOpts(r), Target(r.action), flag, default);
  }

  // ---------- any line of the chain ----------

  lemma FlagInLine(chain: string, opts: seq<Opt>, target: string, flag: string, default: string)
    requires flag != "" && flag[0] == '-' && flag != "-j" && flag != "-A" && Plain(chain) && Plain(target)
    requires forall o | o in opts :: Plain(o.1)
    ensures FlagValue(["-A", chain] + Flatten(opts) + ["-j", target], flag, default) == Ok(OptValue(opts, flag, default))
  {
    var rest := Flatten(opts) + ["-j", target];
    var ts := ["-A", chain] + Flatten(opts) + ["-j", target];
    assert ts == ["-A", chain] + rest;
    assert ts[1..] == [chain] + rest && ts[1..][1..] == rest;
    FlagValueIsOptValue(opts, target, flag, default);
  }

  /** Any line of options and a jump is read field by field; what it does not say is anything at all. */
  lemma LineIsRead(chain: string, opts: seq<Opt>, target: string, index: nat)
    requires Tokens(["-A", chain] + Flatten(opts) + ["-j", target]) && Plain(chain) && Plain(target)
    requires forall o | o in opts :: Plain(o.1)
    ensures ReadRule(Unwords(["-A", chain] + Flatten(opts) + ["-j", target]), index)
         == Ok(Reverted(index, chain,
                        Rule(OptValue(opts, "-i", ""), OptValue(opts, "-o", ""), OptValue(opts, "-s", "0.0.0.0/0"),
                             OptValue(opts, "-d", "0.0.0.0/0"), OptValue(opts, "-p", "all"), OptValue(opts, "--dport", ""),
                             if "LOG" <= target then target[3..] else target, "")))
  {
    hide FlagValue, OptValue, Flatten, Words, Unwords;
    var ts := ["-A", chain] + Flatten(opts) + ["-j", target];
    WordsOfUnwords(ts, "");
    assert Unwords(ts) + "" == Unwords(ts);
    FlagInLine(chain, opts, target, "-i", "");
    FlagInLine(chain, opts, target, "-o", "");
    FlagInLine(chain, opts, target, "-s", ANYWHERE);
    FlagInLine(chain, opts, target, "-d", ANYWHERE);
    FlagInLine(chain, opts, target, "-p", "all");
    FlagInLine(chain, opts, target, "--dport", "");
  }

  lemma BareLineText()
    ensures Unwords(["-A", "FORWARD", "-j", "ACCEPT"]) == "-A FORWARD -j ACCEPT"
  {
    hide Unwords;
    OneWord("ACCEPT");
    UnwordsCons("-j", ["ACCEPT"]);
    UnwordsCons("FORWARD", ["-j", "ACCEPT"]);
    UnwordsCons("-A", ["FORWARD", "-j", "ACCEPT"]);
    assert ["-j"] + ["ACCEPT"] == ["-j", "ACCEPT"] && ["FORWARD"] + ["-j", "ACCEPT"] == ["FORWARD", "-j", "ACCEPT"];
    assert ["-A"] + ["FORWARD", "-j", "ACCEPT"] == ["-A", "FORWARD", "-j", "ACCEPT"];
    assert "-j" + " " + "ACCEPT" == "-j ACCEPT" && "FORWARD" + " " + "-j ACCEPT" == "FORWARD -j ACCEPT";
    assert "-A" + " " + "FORWARD -j ACCEPT" == "-A FORWARD -j ACCEPT";
  }

  lemma OneWord(t: string)
    ensures Unwords([t]) == t
  {
  }

  lemma BareWords()
    ensures ["-A", "FORWARD"] + Flatten([]) + ["-j", "ACCEPT"] == ["-A", "FORWARD", "-j", "ACCEPT"]
    ensures Tokens(["-A", "FORWARD", "-j", "ACCEPT"])
  {
    assert Token("-A") && Token("FORWARD") && Token("-j") && Token("ACCEPT");
  }

  /** A bare jump: any address, any protocol. */
  lemma BareLineIsRead(index: nat)
    ensures ReadRule("-A FORWARD -j ACCEPT", index)
         == Ok(Reverted(index, "FORWARD", Rule("", "", "0.0.0.0/0", "0.0.0.0/0", "all", "", "ACCEPT", "")))
  {
    hide ReadRule, Unwords, Tokens, Flatten, OptValue;
    BareLineText();
    BareWords();
    LineIsRead("FORWARD", [], "ACCEPT", index);
    NoOptions();
  }

  lemma NoOptions()
    ensures forall flag, default :: OptValue([], flag, default) == default
  {
  }
}
