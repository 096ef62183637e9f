/** Revert inverts Apply. */
module RevertTheorems {
  import opened Text
  import opened Firewall
  import opened Kernel
  import opened TableRoundTrip
  import opened FirewallMeaning
  import opened CtState
  import opened Revert

  /** Rules and forwards whose fields are single words that do not start with a dash. */
  predicate Revertible(rules: seq<Rule>, fs: seq<Forward>) {
    (forall r | r in rules :: Printable(r) && PlainFields(r)) && forall f | f in fs :: PrintableForward(f) && PlainForward(f)
  }

  // ---------- one user rule ----------

  lemma UserTokens(r: Rule)
    requires Printable(r) && PlainFields(r)
    ensures Tokens(RuleTokens(UserRule(r))) && Print(UserRule(r)) == Unwords(RuleTokens(UserRule(r)))
  {
    UserOptsOk(r);
    UserTarget(r);
    NamesAreTokens();
    RuleTokensAreTokens(UserRule(r));
    var line := Unwords(RuleTokens(UserRule(r)));
    assert line + "" == line;
  }

  lemma ReadBackOne(r: Rule, index: nat)
    requires Printable(r) && PlainFields(r)
    ensures ReadRule(Print(UserRule(r)), index) == Ok(Reverted(index, "FORWARD", Canon(r)))
  {
    var ts := RuleTokens(UserRule(r));
    UserTokens(r);
    WordsOfUnwords(ts, "");
    assert Print(UserRule(r)) + "" == Print(UserRule(r));
    assert ts[1] == "FORWARD" && ts[|ts| - 1] == Target(r.action);
    ReadFlags(r);
  }

  lemma ReadFlags(r: Rule)
    requires PlainFields(r) && Token(r.action)
    ensures var ts := RuleTokens(UserRule(r));
            && FlagValue(ts, "-i", "") == Ok(r.ifaceIn) && FlagValue(ts, "-o", "") == Ok(r.ifaceOut)
            && FlagValue(ts, "-s", ANYWHERE) == Ok(r.src) && FlagValue(ts, "-d", ANYWHERE) == Ok(r.dst)
            && FlagValue(ts, "-p", "all") == Ok(r.proto)
            && FlagValue(ts, "--dport", "") == Ok(if PrintsPort(r) then r.dport else "")
  {
    UserFlag(r, "-i", "");
    UserOptValue(r, "-i", "");
    UserFlag(r, "-o", "");
    UserOptValue(r, "-o", "");
    UserFlag(r, "-s", ANYWHERE);
    UserOptValue(r, "-s", ANYWHERE);
    UserFlag(r, "-d", ANYWHERE);
    UserOptValue(r, "-d", ANYWHERE);
    UserFlag(r, "-p", "all");
    UserOptValue(r, "-p", "all");
    UserFlag(r, "--dport", "");
    UserOptValue(r, "--dport", "");
  }

  // ---------- which lines are managed ----------

  lemma ShortFlagsAreQuiet()
    ensures forall f | f in FLAGS && f != CTSTATE :: Quiet(f, CTSTATE)
    ensures Quiet("-j", CTSTATE) && Quiet("-A", CTSTATE) && Quiet("FORWARD", CTSTATE)
  {
    hide EndsWith;
    forall f | f in FLAGS && f != CTSTATE ensures Quiet(f, CTSTATE) {
      assert |f| < 9;
      ShortIsNotFlag(f, CTSTATE);
    }
    ShortIsNotFlag("-j", CTSTATE);
    ShortIsNotFlag("-A", CTSTATE);
    ShortIsNotFlag("FORWARD", CTSTATE);
  }

  lemma CalmTokens(a: string, c: string, opts: seq<Opt>, j: string, target: string, flag: string)
    requires Quiet(a, flag) && Quiet(c, flag) && Quiet(j, flag) && forall o | o in opts :: Quiet(o.0, flag)
    ensures Calm([a, c] + Flatten(opts) + [j, target] + [], flag)
  {
    var tail := [j, target];
    assert tail[1..] == [target];
    OptionsAreCalm(opts, tail, flag);
    var more := Flatten(opts) + tail;
    var ts := [a, c] + Flatten(opts) + [j, target] + [];
    assert ts == [a, c] + more;
    assert ts[1..] == [c] + more && ts[1..][1..] == more;
  }

  lemma CalmLine(ts: seq<string>, flag: string)
    requires Calm(ts, flag) && Tokens(ts) && Token(flag)
    ensures Normalize(Unwords(ts) + "", flag) == Unwords(ts) + ""
  {
    CalmIsNormal(ts, flag);
    NormalizeByWords(ts, flag);
    assert Unwords(ts) + "" == Unwords(ts);
  }

  lemma FlagIsAToken()
    ensures Token(CTSTATE)
  {
  }

  /** A FORWARD rule without a state match is left alone by the normalization. */
  lemma StatelessIsNormal(k: ChainRule)
    requires k.chain == "FORWARD" && k.args == [] && Tokens(RuleTokens(k))
    requires forall o | o in k.opts :: o.0 in FLAGS && o.0 != CTSTATE
    ensures NormalizeCtstate(Print(k)) == Print(k)
  {
    ShortFlagsAreQuiet();
    CalmTokens("-A", k.chain, k.opts, "-j", k.target, CTSTATE);
    FlagIsAToken();
    CalmLine(RuleTokens(k), CTSTATE);
  }

  predicate Distinguished(ts: seq<string>) {
    |ts| > 4 && (ts[2] == "-p" || (ts[2] == "-s" && ts[4] == "-d"))
  }

  lemma UserIsDistinguished(r: Rule)
    ensures Distinguished(RuleTokens(UserRule(r)))
  {
    var a := If(r.proto != "all", "-p", r.proto);
    var opts := UserOpts(r);
    assert opts[0] == if r.proto != "all" then ("-p", r.proto) else ("-s", r.src);
    assert r.proto == "all" ==> opts[1] == ("-d", r.dst);
    assert Flatten(opts) == [opts[0].0, opts[0].1] + Flatten(opts[1..]);
    assert Flatten(opts[1..]) == [opts[1].0, opts[1].1] + Flatten(opts[1..][1..]);
  }

  /** Different words make different lines. */
  lemma WordsTellLinesApart(a: seq<string>, b: seq<string>)
    requires Tokens(a) && Tokens(b) && a != b
    ensures Unwords(a) != Unwords(b)
  {
    WordsOfUnwords(a, "");
    WordsOfUnwords(b, "");
    assert Unwords(a) + "" == Unwords(a) && Unwords(b) + "" == Unwords(b);
  }

  const STATE_HEAD := ["-A", "FORWARD", "-m", "conntrack"]

  /** The words of a state rule's line. */
  function StateWords(states: seq<string>, target: string): seq<string> {
    STATE_HEAD + ([CTSTATE, Join(states, ",")] + ["-j", target])
  }

  function StateRuleWith(list: string, target: string): ChainRule {
    ChainRule("FORWARD", [("-m", "conntrack"), ("--ctstate", list)], target, [])
  }

  predicate States(states: seq<string>) {
    |states| > 0 && forall s | s in states :: Token(s) && ',' !in s
  }

  lemma FlattenTwo(a: Opt, b: Opt)
    ensures Flatten([a]) == [a.0, a.1] && Flatten([a, b]) == [a.0, a.1, b.0, b.1]
  {
    assert [a][1..] == [] && [a, b][1..] == [b] && [b][1..] == [];
  }

  lemma StateTokensAre(states: seq<string>, target: string)
    ensures Print(StateRuleWith(Join(states, ","), target)) == Unwords(StateWords(states, target))
  {
    var k := StateRuleWith(Join(states, ","), target);
    FlattenTwo(k.opts[0], k.opts[1]);
    assert RuleTokens(k) == StateWords(states, target);
    assert Unwords(RuleTokens(k)) + "" == Unwords(RuleTokens(k));
  }

  lemma ConntrackIsQuiet()
    ensures !EndsWith("conntrack", CTSTATE)
  {
    var t := "conntrack";
    assert t[0] != CTSTATE[0];
    ShortIsNotFlag(t[1..], CTSTATE);
  }

  lemma StateHeadIsQuiet()
    ensures forall t | t in STATE_HEAD :: !EndsWith(t, CTSTATE)
  {
    hide EndsWith;
    ShortFlagsAreQuiet();
    ShortIsNotFlag("-m", CTSTATE);
    ConntrackIsQuiet();
  }

  lemma StateHeadTokens()
    ensures Tokens(STATE_HEAD)
  {
  }

  lemma {:induction false} JoinedTokens(parts: seq<string>)
    requires |parts| > 0 && forall p | p in parts :: Token(p)
    ensures Token(Join(parts, ","))
  {
    assert parts[0] in parts;
    if |parts| > 1 { JoinedTokens(parts[1..]); }
  }

  lemma SortedStates(states: seq<string>)
    requires States(states)
    ensures States(Sort(states))
  {
    assert forall s | s in Sort(states) :: s in multiset(states);
    assert |Sort(states)| == |multiset(Sort(states))| == |states|;
  }

  lemma StateWordsAreTokens(states: seq<string>, target: string)
    requires States(states) && Token(target)
    ensures Tokens(StateWords(states, target))
  {
    JoinedTokens(states);
    StateHeadTokens();
    FlagIsAToken();
    JumpTokens(target);
  }

  lemma JumpTokens(target: string)
    requires Token(target)
    ensures Tokens(["-j", target])
  {
  }

  /** Normalized, a state rule's line does not depend on the order of its states. */
  lemma StateLineIs(states: seq<string>, target: string)
    requires States(states) && Token(target) && !EndsWith(target, CTSTATE)
    ensures NormalizeCtstate(Print(StateRuleWith(Join(states, ","), target))) == Unwords(StateWords(Sort(states), target))
  {
    StateTokensAre(states, target);
    JoinedTokens(states);
    StateHeadTokens();
    StateHeadIsQuiet();
    FlagIsAToken();
    JumpTokens(target);
    ShortIsNotFlag("-j", CTSTATE);
    NormalForgetsOrder(STATE_HEAD, states, ["-j", target], CTSTATE);
  }

  lemma StateIsNotDistinguished(states: seq<string>, target: string)
    ensures !Distinguished(StateWords(states, target))
  {
    assert StateWords(states, target)[2] == "-m";
  }

  lemma OthersAreNotDistinguished(f: Forward)
    ensures !Distinguished(RuleTokens(ICS_RULE)) && !Distinguished(RuleTokens(CATCH_ALL)) && !Distinguished(RuleTokens(AutoRule(f)))
  {
    FlattenTwo(ICS_RULE.opts[0], ICS_RULE.opts[0]);
    assert RuleTokens(ICS_RULE)[2] == "-s" && RuleTokens(ICS_RULE)[4] == "-j";
    assert RuleTokens(CATCH_ALL)[2] == "-j";
    var opts := AutoOpts(f);
    assert opts[0] == ("-i", f.ifaceIn);
    assert RuleTokens(AutoRule(f))[2] == "-i";
  }

  // ---------- the managed lines ----------

  lemma AutoTokens(f: Forward)
    requires PrintableForward(f)
    ensures Tokens(RuleTokens(AutoRule(f))) && Print(AutoRule(f)) == Unwords(RuleTokens(AutoRule(f)))
    ensures NormalizeCtstate(Print(AutoRule(f))) == Print(AutoRule(f))
  {
    ForwardOptsOk(f);
    NamesAreTokens();
    var k := AutoRule(f);
    RuleTokensAreTokens(k);
    assert Unwords(RuleTokens(k)) + "" == Unwords(RuleTokens(k));
    AutoFlags(f);
    StatelessIsNormal(k);
  }

  lemma AutoFlags(f: Forward)
    ensures forall o | o in AutoOpts(f) :: o.0 in FLAGS && o.0 != CTSTATE
  {
    forall o | o in AutoOpts(f) ensures o.0 in FLAGS && o.0 != CTSTATE {
      assert o.0 in {"-p", "-s", "-d", "-i", "--dport"};
    }
  }

  lemma LastTokens()
    ensures Tokens(RuleTokens(ICS_RULE)) && Tokens(RuleTokens(CATCH_ALL))
    ensures Print(ICS_RULE) == Unwords(RuleTokens(ICS_RULE)) && Print(CATCH_ALL) == Unwords(RuleTokens(CATCH_ALL))
    ensures NormalizeCtstate(Print(ICS_RULE)) == Print(ICS_RULE) && NormalizeCtstate(Print(CATCH_ALL)) == Print(CATCH_ALL)
  {
    LastRulesOk();
    RuleTokensAreTokens(ICS_RULE);
    RuleTokensAreTokens(CATCH_ALL);
    assert Unwords(RuleTokens(ICS_RULE)) + "" == Unwords(RuleTokens(ICS_RULE));
    assert Unwords(RuleTokens(CATCH_ALL)) + "" == Unwords(RuleTokens(CATCH_ALL));
    StatelessIsNormal(ICS_RULE);
    StatelessIsNormal(CATCH_ALL);
  }

  lemma StateTargets()
    ensures Token("ACCEPT") && Token("DROP") && !EndsWith("ACCEPT", CTSTATE) && !EndsWith("DROP", CTSTATE)
    ensures States(REPLY_STATES) && States(["INVALID"])
  {
    hide Token, States, EndsWith;
    NamesAreTokens();
    ShortIsNotFlag("ACCEPT", CTSTATE);
    ShortIsNotFlag("DROP", CTSTATE);
    ListedStates();
  }

  lemma ListedStates()
    ensures States(REPLY_STATES) && States(["INVALID"])
  {
    assert Token("ESTABLISHED") && Token("RELATED") && Token("INVALID");
  }

  lemma NotLast(ts: seq<string>)
    requires Tokens(ts) && Distinguished(ts)
    ensures Unwords(ts) != Print(ICS_RULE) && Unwords(ts) != Print(CATCH_ALL)
  {
    LastTokens();
    OthersAreNotDistinguished(Forward("", "", "", "", "", "", "", true, true));
    WordsTellLinesApart(ts, RuleTokens(ICS_RULE));
    WordsTellLinesApart(ts, RuleTokens(CATCH_ALL));
  }

  lemma NotAuto(ts: seq<string>, fs: seq<Forward>)
    requires Tokens(ts) && Distinguished(ts) && forall f | f in fs :: PrintableForward(f)
    ensures Unwords(ts) !in PrintAll(AutoRules(fs))
  {
    forall i | 0 <= i < |fs| ensures Unwords(ts) != PrintAll(AutoRules(fs))[i] {
      assert fs[i] in fs;
      AutoTokens(fs[i]);
      OthersAreNotDistinguished(fs[i]);
      WordsTellLinesApart(ts, RuleTokens(AutoRule(fs[i])));
    }
  }

  /** Words of a user rule never make a managed line. */
  lemma NotManaged(ts: seq<string>, fs: seq<Forward>)
    requires Tokens(ts) && Distinguished(ts) && forall f | f in fs :: PrintableForward(f)
    ensures Unwords(ts) !in ManagedLines(fs)
  {
    StateTargets();
    NotThisLine(ts, REPLY_STATES, "ACCEPT");
    NotThisLine(ts, ["INVALID"], "DROP");
    NotLast(ts);
    ForwardsKept(fs);
    NotAuto(ts, AutoForwards(fs));
    NotAmong(Unwords(ts), NormalizeCtstate(Print(StateRule(REPLY_STATES, "ACCEPT"))),
             NormalizeCtstate(Print(StateRule(["INVALID"], "DROP"))), Print(ICS_RULE), Print(CATCH_ALL),
             PrintAll(AutoRules(AutoForwards(fs))));
  }

  lemma NotAmong(x: string, a: string, b: string, c: string, d: string, others: seq<string>)
    requires x != a && x != b && x != c && x != d && x !in others
    ensures x !in {a, b, c, d} + (set l | l in others)
  {
  }

  lemma UserPrintsAsWords(r: Rule)
    requires Printable(r) && PlainFields(r)
    ensures var ts := RuleTokens(UserRule(r));
            Tokens(ts) && Distinguished(ts) && Print(UserRule(r)) == Unwords(ts)
            && NormalizeCtstate(Print(UserRule(r))) == Print(UserRule(r)) && "-A FORWARD" <= Print(UserRule(r))
  {
    UserTokens(r);
    UserFields(r);
    StatelessIsNormal(UserRule(r));
    UserIsDistinguished(r);
    StartsWithChain(RuleTokens(UserRule(r)));
  }

  /** A user rule's line is never taken for a managed one. */
  lemma UserIsRead(r: Rule, fs: seq<Forward>)
    requires Printable(r) && PlainFields(r) && forall f | f in fs :: PrintableForward(f)
    ensures !Skipped(Print(UserRule(r)), ManagedLines(fs))
  {
    UserPrintsAsWords(r);
    NotManaged(RuleTokens(UserRule(r)), fs);
  }

  lemma UnwordsStep(ts: seq<string>)
    requires |ts| > 1
    ensures Unwords(ts) == ts[0] + " " + Unwords(ts[1..])
  {
  }

  lemma PrefixOfTwo(a: string, b: string, rest: string)
    ensures a + " " + b <= a + " " + (b + " " + rest)
  {
    assert a + " " + (b + " " + rest) == (a + " " + b) + (" " + rest);
  }

  lemma StartsWithTwo(ts: seq<string>, a: string, b: string)
    requires |ts| > 2 && ts[0] == a && ts[1] == b
    ensures a + " " + b <= Unwords(ts)
  {
    hide Unwords;
    UnwordsStep(ts);
    UnwordsStep(ts[1..]);
    PrefixOfTwo(a, b, Unwords(ts[1..][1..]));
  }

  lemma StartsWithChain(ts: seq<string>)
    requires |ts| > 2 && ts[0] == "-A" && ts[1] == "FORWARD"
    ensures "-A FORWARD" <= Unwords(ts)
  {
    hide Unwords;
    StartsWithTwo(ts, "-A", "FORWARD");
    assert "-A" + " " + "FORWARD" == "-A FORWARD";
  }

  lemma NotThisLine(ts: seq<string>, states: seq<string>, target: string)
    requires Tokens(ts) && Distinguished(ts) && States(states) && Token(target) && !EndsWith(target, CTSTATE)
    ensures Unwords(ts) != NormalizeCtstate(Print(StateRule(states, target)))
  {
    StateLineIs(states, target);
    assert StateRule(states, target) == StateRuleWith(Join(states, ","), target);
    SortedStates(states);
    StateWordsAreTokens(Sort(states), target);
    StateIsNotDistinguished(Sort(states), target);
    WordsTellLinesApart(ts, StateWords(Sort(states), target));
  }

  // ---------- the listed chain ----------

  /** Two lists with the same elements in any order. */
  ghost predicate Permuted(v: string, w: string) {
    exists xs, ys :: v == Join(xs, ",") && w == Join(ys, ",") && States(xs) && multiset(xs) == multiset(ys)
  }

  /** The kernel may list a rule with its states in another order, and otherwise as written. */
  ghost predicate ListedAs(k: ChainRule, l: ChainRule) {
    && l.chain == k.chain && l.target == k.target && l.args == k.args && |l.opts| == |k.opts|
    && forall i | 0 <= i < |k.opts| :: l.opts[i] == k.opts[i]
                                       || (k.opts[i].0 == CTSTATE && l.opts[i].0 == CTSTATE && Permuted(k.opts[i].1, l.opts[i].1))
  }

  ghost predicate Listing(ks: seq<ChainRule>, ls: seq<ChainRule>) {
    |ls| == |ks| && forall i | 0 <= i < |ks| :: ListedAs(ks[i], ls[i])
  }

  lemma ListedStateless(k: ChainRule, l: ChainRule)
    requires ListedAs(k, l) && forall o | o in k.opts :: o.0 != CTSTATE
    ensures l == k
  {
    assert forall i | 0 <= i < |k.opts| :: k.opts[i] in k.opts;
    assert l.opts == k.opts;
  }

  lemma ListedState(states: seq<string>, target: string, l: ChainRule)
    requires States(states) && Token(target) && !EndsWith(target, CTSTATE) && ListedAs(StateRule(states, target), l)
    ensures NormalizeCtstate(Print(l)) == NormalizeCtstate(Print(StateRule(states, target)))
  {
    var k := StateRule(states, target);
    assert l.opts == [k.opts[0], l.opts[1]];
    if l.opts[1] != k.opts[1] {
      var xs, ys :| k.opts[1].1 == Join(xs, ",") && l.opts[1].1 == Join(ys, ",") && States(xs) && multiset(xs) == multiset(ys);
      assert [','] == ",";
      SplitOfJoin(xs, ',');
      SplitOfJoin(states, ',');
      assert xs == states;
      SortIgnoresOrder(xs, ys);
      assert |multiset(ys)| == |ys| && forall y | y in ys :: y in multiset(xs);
      assert |multiset(xs)| == |xs|;
      StateLineIs(xs, target);
      StateLineIs(ys, target);
      assert l == StateRuleWith(Join(ys, ","), target);
    } else {
      assert l == k;
    }
  }

  lemma {:induction false} CollectKept<A>(lines: seq<string>, found: seq<A>, rest: seq<string>,
                                          keep: string -> bool, read: (string, nat) -> Result<A>, n: nat)
    requires |found| == |lines| && forall i | 0 <= i < |lines| :: keep(lines[i]) && read(lines[i], n + i + 1) == Ok(found[i])
    requires Collect(rest, keep, read, n + |lines|) == Ok([])
    ensures Collect(lines + rest, keep, read, n) == Ok(found)
    decreases |lines|
  {
    if lines == [] {
      assert lines + rest == rest;
    } else {
      assert (lines + rest)[1..] == lines[1..] + rest;
      CollectKept(lines[1..], found[1..], rest, keep, read, n + 1);
      assert found == [found[0]] + found[1..];
    }
  }

  lemma {:induction false} CollectSkipped<A>(skipped: seq<string>, rest: seq<string>,
                                             keep: string -> bool, read: (string, nat) -> Result<A>, n: nat)
    requires forall l | l in skipped :: !keep(l)
    ensures Collect(skipped + rest, keep, read, n) == Collect(rest, keep, read, n)
    decreases |skipped|
  {
    if skipped == [] {
      assert skipped + rest == rest;
    } else {
      assert skipped[0] in skipped;
      assert (skipped + rest)[1..] == skipped[1..] + rest;
      CollectSkipped(skipped[1..], rest, keep, read, n);
    }
  }

  lemma CollectBetween<A>(head: seq<string>, lines: seq<string>, end: seq<string>, found: seq<A>,
                          keep: string -> bool, read: (string, nat) -> Result<A>)
    requires (forall l | l in head :: !keep(l)) && (forall l | l in end :: !keep(l))
    requires |found| == |lines| && forall i | 0 <= i < |lines| :: keep(lines[i]) && read(lines[i], i + 1) == Ok(found[i])
    ensures Collect(head + (lines + end), keep, read, 0) == Ok(found)
  {
    CollectSkipped(head, lines + end, keep, read, 0);
    assert end + [] == end;
    CollectSkipped(end, [], keep, read, |lines|);
    CollectKept(lines, found, end, keep, read, 0);
  }

  /** What Revert shows for a list of user rules. */
  function Shown(rules: seq<Rule>): seq<Reverted> {
    seq(|rules|, i requires 0 <= i < |rules| => Reverted(i + 1, "FORWARD", Canon(rules[i])))
  }

  lemma StatesAreSkipped(l1: ChainRule, l2: ChainRule, fs: seq<Forward>)
    requires ListedAs(StateRule(REPLY_STATES, "ACCEPT"), l1) && ListedAs(StateRule(["INVALID"], "DROP"), l2)
    ensures Skipped(Print(l1), ManagedLines(fs)) && Skipped(Print(l2), ManagedLines(fs))
  {
    StateTargets();
    ListedState(REPLY_STATES, "ACCEPT", l1);
    ListedState(["INVALID"], "DROP", l2);
  }

  lemma AutosAreSkipped(fs: seq<Forward>)
    requires forall f | f in fs :: PrintableForward(f)
    ensures forall l | l in PrintAll(AutoRules(AutoForwards(fs))) :: Skipped(l, ManagedLines(fs))
  {
    ForwardsKept(fs);
    var autos := AutoForwards(fs);
    forall l | l in PrintAll(AutoRules(autos)) ensures Skipped(l, ManagedLines(fs)) {
      var i :| 0 <= i < |autos| && l == Print(AutoRule(autos[i]));
      assert autos[i] in autos;
      AutoTokens(autos[i]);
    }
  }

  lemma LastAreSkipped(fs: seq<Forward>)
    ensures Skipped(Print(ICS_RULE), ManagedLines(fs)) && Skipped(Print(CATCH_ALL), ManagedLines(fs))
  {
    LastTokens();
  }

  /** Apart from its state rules, the chain is listed as it was written. */
  lemma ListedChain(rules: seq<Rule>, fs: seq<Forward>, ls: seq<ChainRule>)
    requires Revertible(rules, fs) && Listing(ForwardChain(rules, fs), ls)
    ensures |ls| >= 2 && ListedAs(StateRule(REPLY_STATES, "ACCEPT"), ls[0]) && ListedAs(StateRule(["INVALID"], "DROP"), ls[1])
    ensures ls[2..] == UserRules(rules) + (AutoRules(AutoForwards(fs)) + [ICS_RULE, CATCH_ALL])
  {
    hide ListedAs, Revertible, UserRules, AutoRules, AutoForwards;
    var tail := UserRules(rules) + (AutoRules(AutoForwards(fs)) + [ICS_RULE, CATCH_ALL]);
    var ks := ForwardChain(rules, fs);
    assert ks == StateRules() + tail;
    assert forall i | 0 <= i < |tail| :: ks[i + 2] == tail[i];
    forall i | 0 <= i < |tail| ensures ls[2..][i] == tail[i] {
      assert ListedAs(ks[i + 2], ls[i + 2]);
      TailIsStateless(rules, fs, i);
      ListedStateless(tail[i], ls[i + 2]);
    }
    assert ListedAs(ks[0], ls[0]) && ListedAs(ks[1], ls[1]);
  }

  lemma TailIsStateless(rules: seq<Rule>, fs: seq<Forward>, i: nat)
    requires Revertible(rules, fs)
    requires i < |rules| + |AutoForwards(fs)| + 2
    ensures forall o | o in (UserRules(rules) + (AutoRules(AutoForwards(fs)) + [ICS_RULE, CATCH_ALL]))[i].opts :: o.0 != CTSTATE
  {
    var autos := AutoForwards(fs);
    if i < |rules| {
      assert rules[i] in rules;
      UserFields(rules[i]);
    } else if i < |rules| + |autos| {
      AutoFlags(autos[i - |rules|]);
    }
  }

  /**
   Revert inverts Apply: from the listing of the applied chain it drops exactly the managed lines,
   and returns the user rules in order, numbered from 1.
   */
  lemma RevertInvertsApply(rules: seq<Rule>, fs: seq<Forward>, ls: seq<ChainRule>)
    requires Revertible(rules, fs) && Listing(ForwardChain(rules, fs), ls)
    ensures ReadChain(["-P FORWARD DROP"] + PrintAll(ls), ManagedLines(fs)) == Ok(Shown(rules))
  {
    hide Listing, Skipped, ReadRule, ManagedLines, Printable;
    ListedChain(rules, fs, ls);
    StatesAreSkipped(ls[0], ls[1], fs);
    AutosAreSkipped(fs);
    LastAreSkipped(fs);
    PolicyIsSkipped(ManagedLines(fs));
    var managed, users := ManagedLines(fs), PrintAll(UserRules(rules));
    forall i | 0 <= i < |rules| ensures !Skipped(users[i], managed) && ReadRule(users[i], i + 1) == Ok(Shown(rules)[i]) {
      assert rules[i] in rules;
      UserIsRead(rules[i], fs);
      ReadBackOne(rules[i], i + 1);
    }
    ListingText(ls, UserRules(rules), AutoRules(AutoForwards(fs)), ICS_RULE, CATCH_ALL);
    CollectBetween(["-P FORWARD DROP", Print(ls[0]), Print(ls[1])], users,
                   PrintAll(AutoRules(AutoForwards(fs))) + [Print(ICS_RULE), Print(CATCH_ALL)], Shown(rules),
                   l => !Skipped(l, managed), ReadRule);
  }

  lemma PolicyIsSkipped(managed: set<string>)
    ensures Skipped("-P FORWARD DROP", managed)
  {
    assert "-A FORWARD"[1] != "-P FORWARD DROP"[1];
  }

  lemma ListingText(ls: seq<ChainRule>, users: seq<ChainRule>, autos: seq<ChainRule>, ics: ChainRule, last: ChainRule)
    requires |ls| >= 2 && ls[2..] == users + (autos + [ics, last])
    ensures ["-P FORWARD DROP"] + PrintAll(ls)
         == ["-P FORWARD DROP", Print(ls[0]), Print(ls[1])] + (PrintAll(users) + (PrintAll(autos) + [Print(ics), Print(last)]))
  {
    hide Print;
    assert ls == [ls[0], ls[1]] + ls[2..];
  }

  // ---------- rebuilding after a revert ----------

  function CanonAll(rules: seq<Rule>): (c: seq<Rule>)
    ensures |c| == |rules|
  {
    seq(|rules|, i requires 0 <= i < |rules| => Canon(rules[i]))
  }

  /** The actions whose target is printed again after a revert. */
  predicate Reprints(action: string) {
    !("LOG" <= action) || action == "LOGDROP" || action == "LOGREJECT"
  }

  lemma TargetAgain(action: string)
    ensures Target(StripLog(Target(action))) == Target(action) <==> Reprints(action)
  {
    var log := "LOG";
    StripPrefix(log, "DROP");
    StripPrefix(log, "REJECT");
    assert log + "DROP" == "LOGDROP" && log + "REJECT" == "LOGREJECT";
    if action == "DROP" || action == "REJECT" {
      assert action[0] != log[0];
      assert StripLog(Target(action)) == action;
    } else if log <= action {
      var rest := action[3..];
      assert action == log + rest;
      assert |rest| < |action|;
    }
  }

  lemma StripPrefix(p: string, s: string)
    ensures p <= p + s && (p + s)[|p|..] == s
  {
  }

  lemma UserLineAgain(r: Rule)
    ensures Print(UserRule(Canon(r))) == Print(UserRule(r)) <==> Reprints(r.action)
  {
    var opts := UserOpts(r);
    assert UserOpts(Canon(r)) == opts;
    LineOfPartial("FORWARD", opts, Target(r.action));
    LineOfPartial("FORWARD", opts, Target(Canon(r).action));
    TargetAgain(r.action);
    SameEnding(Partial("FORWARD", opts) + " -j ", Target(r.action), Target(Canon(r).action));
    var a, b := Unwords(RuleTokens(UserRule(r))), Unwords(RuleTokens(UserRule(Canon(r))));
    assert a + "" == a && b + "" == b;
  }

  lemma SameEnding(p: string, a: string, b: string)
    ensures p + a == p + b <==> a == b
  {
    assert (p + a)[|p|..] == a && (p + b)[|p|..] == b;
  }

  lemma UserOnOneLine(r: Rule)
    requires Printable(r) && PlainFields(r)
    ensures '\n' !in Print(UserRule(r)) && '\n' !in Print(UserRule(Canon(r)))
  {
    UserTokens(r);
    var k, c := UserRule(r), UserRule(Canon(r));
    TokensStayOnOneLine(RuleTokens(k), "");
    var p := Partial("FORWARD", UserOpts(r));
    assert UserOpts(Canon(r)) == UserOpts(r);
    LineOfPartial("FORWARD", UserOpts(r), k.target);
    LineOfPartial("FORWARD", UserOpts(r), c.target);
    assert Unwords(RuleTokens(c)) + "" == Unwords(RuleTokens(c));
    assert Print(k) == p + " -j " + k.target && Print(c) == p + " -j " + c.target;
    UserTarget(r);
    assert forall ch | ch in c.target :: ch in Target(r.action) || ch in "LOG";
    assert forall ch | ch in p :: ch in Print(k);
    assert '\n' !in " -j " && '\n' !in "LOG";
  }

  /** Texts of lines are equal exactly when the lines are. */
  lemma SameText(a: seq<string>, b: seq<string>)
    requires (forall l | l in a :: '\n' !in l) && forall l | l in b :: '\n' !in l
    ensures Unlines(a) == Unlines(b) <==> a == b
  {
    LinesOfUnlines(a);
    LinesOfUnlines(b);
  }

  lemma SameMiddle(a: seq<string>, x: seq<string>, y: seq<string>, b: seq<string>)
    requires |x| == |y|
    ensures a + x + b == a + y + b <==> forall i | 0 <= i < |x| :: x[i] == y[i]
  {
    var s, t := a + x + b, a + y + b;
    assert forall i | 0 <= i < |x| :: s[|a| + i] == x[i] && t[|a| + i] == y[i];
    if forall i | 0 <= i < |x| :: x[i] == y[i] { assert x == y; }
  }

  /** The lines of the filter file around the user rules. */
  lemma FilterTextParts(rules: seq<Rule>, fs: seq<Forward>)
    ensures FilterText(rules, fs)
         == Unlines(TableHead("filter", FILTER_CHAINS) + PrintAll(LogRules() + StateRules()) + PrintAll(UserRules(rules))
                    + (PrintAll(AutoRules(AutoForwards(fs))) + PrintAll([ICS_RULE, CATCH_ALL]) + [Unwords(["COMMIT"])]))
  {
    Together(LogRules(), StateRules(), UserRules(rules), AutoRules(AutoForwards(fs)), [ICS_RULE, CATCH_ALL]);
    Regroup(TableHead("filter", FILTER_CHAINS), PrintAll(LogRules() + StateRules()), PrintAll(UserRules(rules)),
            PrintAll(AutoRules(AutoForwards(fs))), PrintAll([ICS_RULE, CATCH_ALL]), [Unwords(["COMMIT"])]);
  }

  lemma Regroup(h: seq<string>, a: seq<string>, b: seq<string>, c: seq<string>, d: seq<string>, e: seq<string>)
    ensures h + (a + b + c + d) + e == h + a + b + (c + d + e)
  {
  }

  lemma AroundOnOneLine(fs: seq<Forward>)
    requires forall f | f in fs :: PrintableForward(f)
    ensures forall l | l in TableHead("filter", FILTER_CHAINS) + PrintAll(LogRules() + StateRules()) :: '\n' !in l
    ensures forall l | l in PrintAll(AutoRules(AutoForwards(fs))) + PrintAll([ICS_RULE, CATCH_ALL]) + [Unwords(["COMMIT"])] :: '\n' !in l
  {
    hide TableHead, LogRules, StateRules;
    ChainsDeclared();
    FilterRulesOk([], fs);
    assert Token("*" + "filter");
    TableOnOneLineEach("filter", FILTER_CHAINS, LogRules() + ForwardChain([], fs), FILTER_NAMES);
    Together(LogRules(), StateRules(), [], AutoRules(AutoForwards(fs)), [ICS_RULE, CATCH_ALL]);
    PartsOfTable(TableHead("filter", FILTER_CHAINS), PrintAll(LogRules() + StateRules()), PrintAll(UserRules([])),
                 PrintAll(AutoRules(AutoForwards(fs))), PrintAll([ICS_RULE, CATCH_ALL]), [Unwords(["COMMIT"])]);
    assert UserRules([]) == [];
  }

  lemma PartsOfTable(h: seq<string>, a: seq<string>, b: seq<string>, c: seq<string>, d: seq<string>, e: seq<string>)
    ensures var all := h + (a + b + c + d) + e;
            (forall l | l in h + a :: l in all) && forall l | l in c + d + e :: l in all
  {
  }

  /**
   Rebuilding from the reverted rules writes the same file if and only if no action starts with
   LOG, other than the two logging chains themselves: such a prefix is stripped when read.
   */
  lemma RebuildReproduces(rules: seq<Rule>, fs: seq<Forward>)
    requires Revertible(rules, fs)
    ensures FilterText(CanonAll(rules), fs) == FilterText(rules, fs) <==> forall r | r in rules :: Reprints(r.action)
  {
    var head := TableHead("filter", FILTER_CHAINS) + PrintAll(LogRules() + StateRules());
    var end := PrintAll(AutoRules(AutoForwards(fs))) + PrintAll([ICS_RULE, CATCH_ALL]) + [Unwords(["COMMIT"])];
    var x, y := PrintAll(UserRules(CanonAll(rules))), PrintAll(UserRules(rules));
    FilterTextParts(rules, fs);
    FilterTextParts(CanonAll(rules), fs);
    AroundOnOneLine(fs);
    forall i | 0 <= i < |rules| ensures '\n' !in x[i] && '\n' !in y[i] && (x[i] == y[i] <==> Reprints(rules[i].action)) {
      assert rules[i] in rules;
      UserOnOneLine(rules[i]);
      UserLineAgain(rules[i]);
    }
    Rebuilt(head, x, y, end);
    assert forall r | r in rules :: exists i | 0 <= i < |rules| :: r == rules[i];
  }

  lemma Rebuilt(head: seq<string>, x: seq<string>, y: seq<string>, end: seq<string>)
    requires |x| == |y| && (forall l | l in head :: '\n' !in l) && (forall l | l in end :: '\n' !in l)
    requires forall i | 0 <= i < |x| :: '\n' !in x[i] && '\n' !in y[i]
    ensures Unlines(head + x + end) == Unlines(head + y + end) <==> forall i | 0 <= i < |x| :: x[i] == y[i]
  {
    SameText(head + x + end, head + y + end);
    SameMiddle(head, x, y, end);
  }

  lemma KnownReprints(rules: seq<Rule>)
    requires forall r | r in rules :: KnownAction(r.action)
    ensures forall r | r in rules :: Reprints(r.action)
  {
    assert forall a | KnownAction(a) :: a[0] != 'L';
  }

  lemma ShownIsCanon(rules: seq<Rule>)
    ensures Rules(Shown(rules)) == CanonAll(rules)
  {
  }

  /** A whole cycle: what Apply wrote, listed and reverted, is applied again as the same file. */
  lemma ApplyRevertApply(rules: seq<Rule>, fs: seq<Forward>, ls: seq<ChainRule>)
    requires Revertible(rules, fs) && Listing(ForwardChain(rules, fs), ls)
    requires forall r | r in rules :: KnownAction(r.action)
    ensures var r := ReadChain(["-P FORWARD DROP"] + PrintAll(ls), ManagedLines(fs));
            r.Ok? && ApplyText(Rules(r.value), fs) == ApplyText(rules, fs)
  {
    hide Revertible, Listing, ReadChain, FilterText, NatText, CanonAll, Shown, Rules, KnownAction, Reprints, ManagedLines;
    RevertInvertsApply(rules, fs, ls);
    RebuildReproduces(rules, fs);
    KnownReprints(rules);
    ShownIsCanon(rules);
  }

  function Rules(rs: seq<Reverted>): seq<Rule> {
    seq(|rs|, i requires 0 <= i < |rs| => rs[i].rule)
  }
}
